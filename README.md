# Ba7 framework core: configuration files, filters and the class autoloader

This project models in Dafny the core of the Ba7 PHP framework:

- **`Config`** (`Config.class.php`) reads a line-oriented configuration text into a nested, ordered key/value tree.
  - The text uses `key value`, `key = value` or `key: value` lines, `key {` … `}` groups, and `#` comments.
  - It rejects a duplicate key, a line that does not start with a key name, an unmatched `}`, and a group left open at the end of the text.
  - The result is offered through iterator and read-only array faces.
- **Filters** (`Filter.php`) are singly linked chains of value transformers.
  - `FilterFactory::parse` builds a chain from an expression such as `|case:lower`.
  - The one concrete filter, `case`, upper- or lower-cases its value.
- **The autoloader** (`Autoload.php`) keeps a table of rules sorted by class-template length, longest first.
  - A class template such as `[Child|Parent|?][Element]` becomes an anchored, case-insensitive regular expression.
  - The first rule whose expression matches a class name fills its path template, such as `[2|case:lower]/[1.][2|case:lower].php`, from that match's captures.
  - Each placeholder's filter chain is applied to its contribution.
- **The older autoloader** (`Autoload.class.php`) builds the same class-name regex.
  - It rewrites the path template in place, one placeholder at a time.
  - It gives up with INFINITE_LOOP after 100 rounds.

Modules, one per concern:

| module | file | models |
|---|---|---|
| `Wrappers` | wrappers.dfy | `Option` and `Result` (exceptions become `Failure`) |
| `PhpStrings` | php_strings.dfy | the PHP string built-ins the core uses: `trim`, `explode`/`implode`, `strtr`, `empty`, `intval`, PCRE `\w`, case mapping |
| `ConfigTree` | config_tree.dfy | the nested `$items` array and the writes made through the `$writeTo` reference |
| `ConfigParser` | config_parser.dfy | `Config::parse` as a state machine over lines, with its properties |
| `ConfigView` | config_view.dfy | the `Config` class: its parse loop, index, iterator and array access, proved against `ConfigParser` |
| `Filters` | filter.dfy | `Filter`, `_case` and `FilterFactory` |
| `Pcre` | pcre.dfy | `preg_match` and `preg_quote` as an oracle; the `split` helper shared by both rule classes |
| `RuleOrder` | rule_order.dfy | `sortLengthDesc` and the order `register` keeps |
| `AutoloadRules` | autoload_rule.dfy | `Autoload\Rule` and `PathPlaceholder` |
| `Autoloading` | autoload.dfy | `Autoload`: `register` and `load` |
| `LegacyAutoload` | autoload_legacy.dfy | `Autoload` and `AutoloadRule` of `Autoload.class.php` |

**Regular expressions are an oracle.** The engine `Pcre.Engine` is a parameter with three parts:

- `search` stands for `preg_match` with PREG_OFFSET_CAPTURE and an offset.
- `test` stands for plain `preg_match`.
- `quote` stands for `preg_quote`.

The only thing assumed of it is `Pcre.Sound`: a reported hit lies inside the subject at or after the offset, is not empty, and `$0` is the text found there. So every statement about a rule holds for every engine that behaves like PCRE in that respect.

Values, and mutable objects with their fields:

- **Values:** the parse state, tree entries, filter stages, path tokens and split pieces are datatypes.
- **Objects:** `Config`, `Filter`, `Rule`, `AutoloadRule` and the two rule tables are classes with their fields.
- **Loops:** the source's loops are methods with loop invariants. Each is proved equal to a specification function, and the properties are proved about those functions.

## Model

| member | source | states |
|---|---|---|
| `PhpStrings.Trim` | source/framework/class/Config.class.php:166 | the trimmed line is a slice of the line with only whitespace before and after it, and it neither starts nor ends with a character `trim` strips |
| `PhpStrings.TrimPadding` | source/framework/class/Config.class.php:166 | whitespace added on either side of a line does not change its trimmed form |
| `PhpStrings.WordPrefix` | source/framework/class/Config.class.php:199-206 | the key is the longest prefix of `\w` characters: a prefix of the line, all word characters, and followed by a non-word character or the end |
| `PhpStrings.Explode` | source/framework/class/Config.class.php:164 | `explode` gives at least one piece and no piece holds the separator |
| `PhpStrings.ImplodeExplode` | source/framework/class/Autoload.php:298-313 | joining the pieces of an `explode` with the same separator gives back the text |
| `PhpStrings.ExplodeImplode` | source/framework/class/Autoload.php:298-313 | splitting the `implode` of separator-free pieces gives back the pieces |
| `PhpStrings.Slashed` | source/framework/class/Autoload.php:269 | `strtr($s, '\\', '/')` keeps the length and replaces exactly the backslashes by slashes |
| `PhpStrings.IntValPositive` | source/framework/class/Autoload.php:436-437 | a number written with a leading digit 1-9 has a non-zero `intval` |
| `PhpStrings.ToUpper` | source/framework/class/Filter.php:151-154 | upper-casing keeps the length and maps each character independently |
| `PhpStrings.ToLower` | source/framework/class/Filter.php:155-158 | lower-casing keeps the length and maps each character independently |
| `PhpStrings.CaseMappings` | source/framework/class/Filter.php:149-158 | upper-casing leaves no lower-case letter and is idempotent; lower after upper is lower, upper after lower is upper |
| `ConfigTree.Lookup` | source/framework/class/Config.class.php:120-123 | a key is found exactly when it is one of the group's keys, and what is found is the value of an entry with that key |
| `ConfigTree.LookupUnique` | source/framework/class/Config.class.php:37-40 | in a group with unique keys, looking up an entry's key finds that entry's value |
| `ConfigTree.ReplaceGroup` | source/framework/class/Config.class.php:250-251 | writing a sub-group through a reference keeps the group's keys and their order |
| `ConfigTree.InsertAtAppends` | source/framework/class/Config.class.php:228 | a write through `$writeTo` appends the new entry at the end of the group the open-group path points at |
| `ConfigTree.InsertAtKeepsPrefixes` | source/framework/class/Config.class.php:187-193 | after a write, every group along the open-group path is still reachable, so the pointer can be walked again after `}` |
| `ConfigTree.GroupAtPrefix` | source/framework/class/Config.class.php:188-193 | every prefix of a path that reaches a group also reaches a group, so popping the stack leaves a valid write position |
| `ConfigTree.GroupAtWellFormed` | source/framework/class/Config.class.php:134-140 | a sub-group of a duplicate-free tree is duplicate-free |
| `ConfigTree.InsertAtWellFormed` | source/framework/class/Config.class.php:209-251 | writing a key that the current group does not hold yet keeps every group of the tree free of duplicate keys |
| `ConfigParser.AfterKey` | source/framework/class/Config.class.php:224-251 | what follows a key name always makes a key line (a value or a group) for that very key |
| `ConfigParser.HaltIsResult` | source/framework/class/Config.class.php:164-252 | a run through every line ends in the state where the loop stops |
| `ConfigParser.StepKeepsInv` | source/framework/class/Config.class.php:176-251 | one line keeps the tree duplicate-free and the write position inside it |
| `ConfigParser.RunKeepsInv` | source/framework/class/Config.class.php:164-252 | the whole loop keeps the tree duplicate-free and the write position inside it |
| `ConfigParser.ParseWellFormed` | source/framework/class/Config.class.php:208-215 | a successful parse never holds the same key twice in any group |
| `ConfigParser.RunDepth` | source/framework/class/Config.class.php:176-195 | the stack height is the number of `{` minus `}` lines so far, and never drops below zero while the run succeeds |
| `ConfigParser.ParseBalanced` | source/framework/class/Config.class.php:155-264 | every successfully parsed text has balanced group braces |
| `ConfigParser.ParseEndOfFile` | source/framework/class/Config.class.php:254-261 | UNEXPECTED_END_OF_FILE exactly when every line is read without error and some group is still open |
| `ConfigParser.RunNeverEndOfFile` | source/framework/class/Config.class.php:164-252 | the loop itself never throws UNEXPECTED_END_OF_FILE; only the check after it does |
| `ConfigParser.ErrorNamesOffendingLine` | source/framework/class/Config.class.php:167-215 | every error thrown in the loop carries the 1-based number of a line (blank and comment lines counted) that causes that kind of error |
| `ConfigParser.StepOutcome` | source/framework/class/Config.class.php:167-215 | each line increments the line counter; a failing line reports its own number and is a line of the offending kind |
| `ConfigParser.RunCountsLines` | source/framework/class/Config.class.php:164-167 | a successful loop has counted every line of the text |
| `ConfigParser.BlankLinesAddNothing` | source/framework/class/Config.class.php:169-173 | dropping blank and comment lines leaves the tree, the open groups and the kind of error unchanged |
| `ConfigParser.StepShape` | source/framework/class/Config.class.php:167 | the line counter does not change what a line does, apart from the number it reports |
| `ConfigParser.StepAppends` | source/framework/class/Config.class.php:224-251 | a key line appends its entry at the end of the innermost open group; `key {` also makes the new empty group the write position; `}` pops the stack and leaves the tree alone |
| `ConfigParser.OpenedGroupReachable` | source/framework/class/Config.class.php:249-251 | after `key {` the open-group path extended by `key` reaches the new, empty group |
| `ConfigParser.ClassifyKeyLine` | source/framework/class/Config.class.php:199-224 | a trimmed line starting with a key name is classified by the trimmed text after the name |
| `ConfigParser.ClassifySameTrim` | source/framework/class/Config.class.php:166 | lines with the same trimmed text are classified alike |
| `ConfigParser.KeyAlone` | source/framework/class/Config.class.php:224-230 | a key name alone on its line, padded or not, stores the empty string |
| `ConfigParser.AfterSeparator` | source/framework/class/Config.class.php:232-245 | after one `=` or `:`, the trimmed rest is the value, and a lone `{` opens a group |
| `ConfigParser.KeySeparatorValue` | source/framework/class/Config.class.php:232-245 | `key = value` and `key: value` store the value without the separator and the blanks around it; a second separator stays in the value |
| `ConfigParser.KeyValue` | source/framework/class/Config.class.php:238-245 | without a separator, the text after the key name is the value |
| `ConfigParser.KeyOpensGroup` | source/framework/class/Config.class.php:247-251 | `key {` opens a group named `key` |
| `ConfigView.Config.constructor` | source/framework/class/Config.class.php:86-88 | `new Config()` without a file holds no items and an empty index |
| `ConfigView.Config.Current` | source/framework/class/Config.class.php:37-40 | the value of the item at the cursor, none past the end |
| `ConfigView.Config.Key` | source/framework/class/Config.class.php:42-45 | the key of the item at the cursor, none past the end |
| `ConfigView.Config.Next` | source/framework/class/Config.class.php:47-50 | advances the cursor by one and changes nothing else |
| `ConfigView.Config.Rewind` | source/framework/class/Config.class.php:52-55 | puts the cursor back at the start and changes nothing else |
| `ConfigView.Config.Valid` | source/framework/class/Config.class.php:57-60 | true exactly when the cursor is on an item |
| `ConfigView.Config.Exists` | source/framework/class/Config.class.php:64-67 | true exactly when the key is set; this is also `exists` (lines 120-123) |
| `ConfigView.Config.Get` | source/framework/class/Config.class.php:130-145 | false for a missing key, the string of a leaf, or a fresh `Config` over the sub-group with its cursor at the start and its index rebuilt |
| `ConfigView.Config.OffsetSet` | source/framework/class/Config.class.php:74-77 | always MUTATION_NOT_ALLOWED (code 288) |
| `ConfigView.Config.OffsetUnset` | source/framework/class/Config.class.php:79-82 | always MUTATION_NOT_ALLOWED (code 288) |
| `ConfigView.Config.RebuildIndex` | source/framework/class/Config.class.php:271-280 | the key list is the items' keys in order, the count their number, the cursor at 0; the items are untouched |
| `ConfigView.Config.Parse` | source/framework/class/Config.class.php:155-264 | the items written are those of the line machine up to where it stops; on success they are the parse result, duplicate-free, and indexed; on an error that error is reported and the index is left unbuilt |
| `ConfigView.Config.ReadLine` | source/framework/class/Config.class.php:164-195 | one pass of the loop performs exactly one step of the line machine, and the write pointer stays equal to the open-group stack, including after `}` re-walks it |
| `ConfigView.Config.WriteKey` | source/framework/class/Config.class.php:197-236 | the key-line part of the pass performs that step: KEY_NAME_EXPECTED, DUPLICATE_KEY, or the write |
| `ConfigView.Config.StoreValue` | source/framework/class/Config.class.php:224-251 | writes the empty string, the value, or a new empty group at the write pointer, and moves the pointer into a new group |
| `ConfigView.Config.Entries` | source/framework/class/Config.class.php:37-60 | rewinding and stepping the iterator visits every item once, in order |
| `Filters.Validate` | source/framework/class/Filter.php:129-147 | the base filter accepts everything; `case` accepts exactly `upper` or `lower` as first argument, with NOT_ENOUGH_ARGUMENTS exactly when there is none and ARGUMENT_VALUES_UNKNOWN carrying any other first argument; never answers false |
| `Filters.Construct` | source/framework/class/Filter.php:33-45 | a filter is built exactly when its arguments are accepted; otherwise `validate`'s exception goes through, and ARGUMENTS_NOT_VALID never occurs |
| `Filters.Implement` | source/framework/class/Filter.php:149-163 | an accepted stage never reaches UNREACHABLE_CODE; the base filter is the identity; the length is kept |
| `Filters.ApplyAllConcat` | source/framework/class/Filter.php:47-67 | applying a chain with another appended is applying the first, then the second |
| `Filters.PlainChainIsIdentity` | source/framework/class/Filter.php:76-79 | a chain of base filters maps every value to itself |
| `Filters.CaseChains` | source/framework/class/Filter.php:149-163 | `case:upper` then `case:lower` is `case:lower`; `case:upper` twice is `case:upper` once |
| `Filters.Filter.constructor` | source/framework/class/Filter.php:44 | stores the stage as a one-filter chain |
| `Filters.Filter.Create` | source/framework/class/Filter.php:33-45 | `__construct`: the error of `Construct`, or a fresh valid one-filter chain with that stage |
| `Filters.Filter.Apply` | source/framework/class/Filter.php:47-55 | the value of every stage of the chain applied in order |
| `Filters.Filter.Append` | source/framework/class/Filter.php:57-67 | the chain keeps its own filters in order and gains those of the appended chain after them |
| `Filters.KindNamed` | source/framework/class/Filter.php:88-89 | a filter name resolves to a class exactly when it is `case` in any letter case |
| `Filters.GetStage` | source/framework/class/Filter.php:86-90 | succeeds exactly when the name is `case` in any letter case and `validate` accepts the arguments, giving that `case` stage; any other name fails as an unknown class; a `case` filter that fails carries `validate`'s own error |
| `Filters.NextChar` | source/framework/class/Filter.php:97 | the first occurrence of a character at or after a position, or the end, and none before it: where `.` stops (a newline) and where the next filter starts (a bar, &#124;) |
| `Filters.LastBar` | source/framework/class/Filter.php:97 | the last bar (&#124;) of a range, and no bar after it |
| `Filters.HeadOf` | source/framework/class/Filter.php:97-102 | an expression not starting with a bar (&#124;) has no head; a head's text is what follows the leading bar, within the consumed part; a head never holds a newline; the newline behaviour of both scans is stated by `Filters.GreedyHeadOneLine`, `Filters.OneSegmentHeads` and `Filters.NewlineInsideHead` |
| `Filters.ParseStages` | source/framework/class/Filter.php:95-113 | an expression not starting with a bar (&#124;) is the identity filter; every parsed chain consists of accepted filters and ends in the identity filter |
| `Filters.GreedyOneLine` | source/framework/class/Filter.php:97-104 | with the greedy head, a one-line expression is one filter built from everything after the leading bar (&#124;), then the identity |
| `Filters.GreedySwallowsNextFilter` | source/framework/class/Filter.php:97-104 | with the greedy head, &#124;case:a&#124;case:b fails with ARGUMENT_VALUES_UNKNOWN for the argument a&#124;case |
| `Filters.IntendedTwoCaseFilters` | source/framework/class/Filter.php:93-113 | with the head stopping at the next bar (&#124;), &#124;case:a&#124;case:b builds the two `case` filters, then the identity |
| `Filters.ParseSegments` | source/framework/class/Filter.php:93-113 | with the head stopping at the next bar (&#124;), every bar-separated one-line segment builds one filter, in order, then the identity |
| `Filters.OneSegmentScansAgree` | source/framework/class/Filter.php:97 | for one filter, such as &#124;case:lower, with or without newlines in it, the greedy and the corrected scan build the same chain |
| `Filters.OneSegmentHeads` | source/framework/class/Filter.php:97 | for one filter the greedy and the corrected scan find the same head, also when a newline ends or splits it |
| `Filters.NewlineInsideHead` | source/framework/class/Filter.php:97-100 | a newline inside the first filter, not at the end, leaves no head for either scan, so the chain is the identity filter alone |
| `Filters.FilterFactory.Get` | source/framework/class/Filter.php:86-90 | the error of `GetStage`, or a fresh valid one-filter chain with its stage |
| `Filters.FilterFactory.Parse` | source/framework/class/Filter.php:95-113 | the error of `ParseStages`, or a fresh valid chain whose stages are exactly those of `ParseStages` |
| `Pcre.Split` | source/framework/class/Autoload.php:361-402 | the loop of `split` computes `SplitFrom` from offset 0 |
| `Pcre.SplitJoins` | source/framework/class/Autoload.php:361-402 | the gaps and each match's `$0`, put back together in order, give the input from the offset on |
| `Pcre.SplitShape` | source/framework/class/Autoload.php:375-380 | with PREG_SPLIT_NO_EMPTY no string piece is empty, and a string piece is always followed by a match unless it is last |
| `RuleOrder.SortLengthDesc` | source/framework/class/Autoload.php:126-139 | -1, 0 or 1; negative exactly when the first rule is longer, 0 exactly when the lengths are equal |
| `RuleOrder.ComparatorLaws` | source/framework/class/Autoload.php:126-139 | the comparator is antisymmetric and "not after" is transitive, as `usort` needs |
| `RuleOrder.SortedIsDescending` | source/framework/class/Autoload.php:126-139 | sorted by the comparator means ordered by length, longest first |
| `RuleOrder.InsertionPoint` | source/framework/class/Autoload.php:100-104 | a stable sort places the new rule after every rule at least as long and before every shorter one |
| `RuleOrder.InsertionPointUnique` | source/framework/class/Autoload.php:100-104 | that position is the only one with this property |
| `RuleOrder.FindInsertionPoint` | source/framework/class/Autoload.php:100-104 | the search, comparing with `sortLengthDesc`, finds that position |
| `RuleOrder.InsertSorted` | source/framework/class/Autoload.php:100-104 | inserting there keeps the table sorted |
| `RuleOrder.FirstIsLongest` | source/framework/class/Autoload.php:64-71 | in the sorted table a rule is at least as long as every rule after it |
| `AutoloadRules.AlternativeAsWritten` | source/framework/class/Autoload.php:298-311 | `empty($alt)` agrees with the intended rewriting on every alternative but "0" |
| `AutoloadRules.ZeroAlternative` | source/framework/class/Autoload.php:300-302 | as written, the alternative "0" becomes `\w+`; intended, it stays "0" |
| `AutoloadRules.GroupAlternatives` | source/framework/class/Autoload.php:297-318 | the generated group is `(`…`)`, and splitting its body on the bar (&#124;) gives exactly the rewritten alternatives, plus an empty one for `?`; alternatives other than "" and `\` come through unchanged |
| `AutoloadRules.ClassRegexShape` | source/framework/class/Autoload.php:286-324 | the regex is `%^`…`$%i`; a template without groups becomes its quoted text; the empty template becomes `%^$%i` |
| `AutoloadRules.BuildGroup` | source/framework/class/Autoload.php:297-318 | the loop over the alternatives builds `GroupRegex` |
| `AutoloadRules.MakePlaceholder` | source/framework/class/Autoload.php:434-449 | ZERO_IS_NOT_ALLOWED exactly when `intval` of the number is 0; otherwise the filter expression's error, or a placeholder with that number and the parsed, accepted chain |
| `AutoloadRules.PatternNumbersAccepted` | source/framework/class/Autoload.php:186 | every number the placeholder pattern captures builds a placeholder; without filters its chain is the identity |
| `AutoloadRules.TokenOf` | source/framework/class/Autoload.php:332-339 | a built token is a literal or a placeholder with a positive number and accepted filters |
| `AutoloadRules.TokensOf` | source/framework/class/Autoload.php:326-343 | one well-formed token per piece of the split template |
| `AutoloadRules.TokensOfFailure` | source/framework/class/Autoload.php:330-340 | the first placeholder that fails to build is the error of the whole template |
| `AutoloadRules.PathOfConcat` | source/framework/class/Autoload.php:253-274 | the path of concatenated token lists is the concatenation of their paths |
| `AutoloadRules.EmptyCaptureDropsPlaceholder` | source/framework/class/Autoload.php:264-267 | a placeholder whose capture is missing or empty drops out of the path, its context included |
| `AutoloadRules.ApplyAllKeepsSlashes` | source/framework/class/Autoload.php:271 | filters never introduce a backslash |
| `AutoloadRules.PathHasNoBackslash` | source/framework/class/Autoload.php:253-274 | when the template's literal text and contexts hold no backslash, the path holds none: every namespace separator became a directory separator |
| `AutoloadRules.PathFor` | source/framework/class/Autoload.php:241-275 | false when the last `match` stored nothing; an error only when building the tokens fails |
| `AutoloadRules.BuildClassRegex` | source/framework/class/Autoload.php:286-324 | the loop of `prepareClassnameRegex` builds `ClassRegex` |
| `AutoloadRules.PieceText` | source/framework/class/Autoload.php:291-318 | one iteration: quoted text for a gap, the group for a `[...]` |
| `AutoloadRules.BuildPathTokens` | source/framework/class/Autoload.php:326-343 | the loop of `preparePathTokens` computes `PathTokens`, error included |
| `AutoloadRules.BuildPath` | source/framework/class/Autoload.php:253-274 | the loop of `getPath` appends each token's contribution in order |
| `AutoloadRules.Rule.constructor` | source/framework/class/Autoload.php:211-217 | stores both templates and the template length; both caches empty, no match |
| `AutoloadRules.Rule.GetLength` | source/framework/class/Autoload.php:219-222 | the byte length of the class template |
| `AutoloadRules.Rule.PrepareClassnameRegex` | source/framework/class/Autoload.php:286-324 | caches `ClassRegex` of the template and changes nothing else |
| `AutoloadRules.Rule.Match` | source/framework/class/Autoload.php:224-239 | builds the regex once; stores the captures on a match and false otherwise; answers whether it matched |
| `AutoloadRules.Rule.PreparePathTokens` | source/framework/class/Autoload.php:326-343 | returns `PathTokens` and caches them only when every placeholder was built |
| `AutoloadRules.Rule.GetPath` | source/framework/class/Autoload.php:241-275 | `PathFor` of the stored captures; the caches only ever hold what the templates determine |
| `Autoloading.FirstMatchFrom` | source/framework/class/Autoload.php:64-71 | the first matching rule from a position on: it matches and no rule between the position and it does, or none matches |
| `Autoloading.FirstMatch` | source/framework/class/Autoload.php:64-71 | the first matching rule of the table: it matches and no earlier rule does, or none matches |
| `Autoloading.Resolve` | source/framework/class/Autoload.php:60-77 | no match gives no path; a path handed on is never falsy |
| `Autoloading.RulePath` | source/framework/class/Autoload.php:66-77 | a path the matched rule gives is handed on only when it is not falsy |
| `Autoloading.LongestTemplateWins` | source/framework/class/Autoload.php:60-71 | in the sorted table, the rule `load` uses has the longest class template of all that match |
| `Autoloading.Autoload.constructor` | source/framework/class/Autoload.php:32 | the table starts empty |
| `Autoloading.Autoload.Register` | source/framework/class/Autoload.php:100-104 | the new rule is spliced in where the stable sort puts it, the other rules keep their order, and the table stays sorted |
| `Autoloading.Autoload.TryRule` | source/framework/class/Autoload.php:66-70 | matches exactly when the rule's regex matches; on a match gives `RulePath` |
| `Autoloading.Autoload.Load` | source/framework/class/Autoload.php:60-77 | `Resolve` of the table: the path of the first matching rule, none when nothing matches or the path is falsy |
| `LegacyAutoload.ReplacementAsWritten` | source/framework/class/Autoload.class.php:267-272 | `! empty($this->matches[$n])` agrees with the intended replacement on every capture but "0" |
| `LegacyAutoload.ZeroCaptureDropped` | source/framework/class/Autoload.class.php:268 | as written, a capture "0" makes the placeholder and its context vanish; intended, "0" is kept |
| `LegacyAutoload.ReplacementMatchesNewRule` | source/framework/class/Autoload.class.php:267-272 | the corrected replacement is what the newer rule's `getPath` adds for an unfiltered placeholder |
| `LegacyAutoload.Step` | source/framework/class/Autoload.class.php:260-276 | one round keeps the text before the hit, scans on from the end of the replacement, and keeps the rest after it |
| `LegacyAutoload.LimitOnlyCounts` | source/framework/class/Autoload.class.php:243-253 | INFINITE_LOOP exactly when the walk has more hits than rounds are left; otherwise the walk's own path |
| `LegacyAutoload.WalkKeepsPrefix` | source/framework/class/Autoload.class.php:273-276 | text before the scan position is never touched again |
| `LegacyAutoload.NoRescan` | source/framework/class/Autoload.class.php:273-276 | the final path starts with the text before the first placeholder and its replacement, which is never rescanned |
| `LegacyAutoload.LegacyPathFor` | source/framework/class/Autoload.class.php:233-280 | false when the last `match` stored nothing |
| `LegacyAutoload.SubstituteAll` | source/framework/class/Autoload.class.php:240-279 | the loop of `getPath` computes `Substitute` from the start, error included |
| `LegacyAutoload.MatchCountSnoc` | source/framework/class/Autoload.class.php:321 | each group piece counts once towards `patternCount` |
| `LegacyAutoload.BuildExpression` | source/framework/class/Autoload.class.php:291-332 | the same expression as the newer rule builds, and the number of `[...]` groups |
| `LegacyAutoload.AutoloadRule.constructor` | source/framework/class/Autoload.class.php:203-209 | stores both templates and the template length; no expression, no match |
| `LegacyAutoload.AutoloadRule.GetLength` | source/framework/class/Autoload.class.php:211-214 | the byte length of the class template |
| `LegacyAutoload.AutoloadRule.PrepareExpression` | source/framework/class/Autoload.class.php:291-332 | caches the expression and the group count |
| `LegacyAutoload.AutoloadRule.Match` | source/framework/class/Autoload.class.php:216-231 | builds the expression once; stores the captures on a match and false otherwise |
| `LegacyAutoload.AutoloadRule.GetPath` | source/framework/class/Autoload.class.php:233-280 | `LegacyPathFor` of the stored captures |
| `LegacyAutoload.RulePath` | source/framework/class/Autoload.class.php:62-73 | a path the matched rule gives is handed on only when it is not falsy |
| `LegacyAutoload.Resolve` | source/framework/class/Autoload.class.php:56-73 | no match gives no path; a path handed on is never falsy |
| `LegacyAutoload.Autoload.constructor` | source/framework/class/Autoload.class.php:28 | the table starts empty |
| `LegacyAutoload.Autoload.Register` | source/framework/class/Autoload.class.php:96-100 | the new rule is spliced in where the stable sort puts it, and the table stays sorted |
| `LegacyAutoload.Autoload.TryRule` | source/framework/class/Autoload.class.php:62-66 | matches exactly when the rule's expression matches; on a match gives `RulePath` |
| `LegacyAutoload.Autoload.Load` | source/framework/class/Autoload.class.php:56-73 | `Resolve` of the table: the path of the first matching rule, none otherwise |

## Left out

- Config file loading: the constructor's `file_exists` and `file_get_contents` and the FILE_DOES_NOT_EXIST error are left out. So is its wrapping of parse errors, whose `catch (\Exception)` branch also refers to an unbound `$e`. The model parses a text given directly.
- Config keys: PHP's coercion of numeric-string keys (`"1"` becoming the integer 1) is not modelled. Keys are compared as strings.
- Config `current`/`key` past the end: PHP reads an undefined index, gives null and raises a notice. The model answers none.
- Config `__get` and `offsetGet` are aliases of `get` and are not modelled separately. `offsetExists` and `exists` share `ConfigView.Config.Exists`.
- Autoloader registration: `init`, `isSplRegistered`, `spl_autoload_register` and the preservation of `__autoload` are left out. They talk to the PHP runtime.
- File checks in `load`: `file_exists`, `require_once`, `class_exists`/`interface_exists` and the two AutoloadException codes are left out. They are I/O, so `load` is modelled up to the path it would require.
- Regular expressions: matching itself is not modelled. `Pcre.Engine` is an oracle, and the patterns are kept as constants without their extended-mode layout.
- `split`'s PREG_OFFSET_CAPTURE output variant: no caller uses it, so only the variant that strips offsets is modelled.
- Case mapping: `mb_strtoupper` and `mb_strtolower` are modelled on ASCII letters only. Unicode case mapping is not modelled.
- `intval`: saturation at PHP_INT_MAX is not modelled. The integers are unbounded.
- `PathPlaceholderException` does not extend `\Exception`, so in PHP its `throw` is itself an error. The model reports it as the failure `ZeroIsNotAllowed`, and the placeholder pattern never captures a number that raises it.
- `usort` is modelled as the stable sort PHP 8 guarantees. On an already sorted table it amounts to inserting the new rule after every rule at least as long.
- Filter objects inside placeholders are kept as their lists of stages (`Filters.ParseStages`). The linked `Filter` class is modelled and proved separately.
- The older `AutoloadRule` applies no filters, and the model does the same. Its placeholder pattern (Autoload.class.php:179) lets the right context (group 3) hold `|`, unlike the newer `[^\d\]\|]*` (Autoload.php:187). So a filter expression without digits is read as right context and copied into the path: `lib/[1|case:lower].php` with capture `Foo` gives `lib/Foo|case:lower.php`. Group 4 takes part only when a filter holds a digit, and its capture is never used. The model takes the groups from the regular expression oracle, so it follows the same reading.
- `Autoloading.Autoload.Load`: the loop body is factored into `TryRule`. A rule that fails to build its path tokens reports the failure rather than raising it.
- `__toString` debug helpers are not modelled.
- `Filters.FilterFactory.Parse` and the placeholders use the corrected head scan (see Findings). It ends the head at the first bar and leaves that bar for the next filter, but keeps the newline handling of Filter.php:97: `.` stops at a newline and `$` holds at the end or before a final newline. So `|case:lower\n` builds `case:lower` and the identity filter, and `|case:lo\nwer` builds the identity filter alone, in both scans. The behaviour as written is modelled by `Filters.ParseStages` with `Greedy`.
- `AutoloadRules.PathFor` states only the false and error cases of `getPath`. What the path is, token by token, is stated by `AutoloadRules.BuildPath` and the lemmas about `PathOf`.
- `LegacyAutoload.LegacyPathFor` states only the false case. The path itself is stated by `LegacyAutoload.LimitOnlyCounts` and `LegacyAutoload.NoRescan` about `Substitute` and `Walk`.
- `Autoloading.Resolve` states the no-match case and that a returned path is never falsy. Which rule is used is stated by `Autoloading.FirstMatch` and `Autoloading.LongestTemplateWins`.
- `LegacyAutoload.Resolve` states the same as `Autoloading.Resolve`, for the older table.
- `AutoloadRules.BuildGroup`, `AutoloadRules.ClassRegex` and `AutoloadRules.GroupRegex` use the intended alternative rewriting (see Findings). The alternative "0" stays a literal `0`, where `empty($alt)` at Autoload.php:300 and Autoload.class.php:302 turns it into `\w+`. The rewriting as written is `AutoloadRules.AlternativeAsWritten`. The lines below name the members this reaches.
- `AutoloadRules.BuildClassRegex`: builds the class regex with the intended "0" rewriting, not with `empty($alt)`.
- `AutoloadRules.PieceText`: a `[...]` piece uses the intended "0" rewriting.
- `AutoloadRules.Rule.PrepareClassnameRegex`: caches the regex built with the intended "0" rewriting. The source would cache `(\w+|1)` for `[0|1]`.
- `AutoloadRules.Rule.Match`: tests the regex built with the intended "0" rewriting. So `Model_Foo` does not match `Model_[0|1]` in the model, though it does in the source.
- `Autoloading.Matches`: uses the class regex built with the intended "0" rewriting.
- `Autoloading.Autoload.TryRule`: matches through the class regex built with the intended "0" rewriting, and builds the path tokens with the corrected head scan.
- `Autoloading.Autoload.Load`: resolves over class regexes built with the intended "0" rewriting, and builds path tokens with the corrected head scan. It differs from `load` on class templates with a "0" alternative. It also differs on placeholders with two filters: for `[1|case:lower|case:upper]` the source throws ARGUMENT_VALUES_UNKNOWN and the model builds both filters.
- The corrected head scan also reaches the newer rule's path tokens. The members it reaches are `AutoloadRules.MakePlaceholder`, `AutoloadRules.TokenOf`, `AutoloadRules.TokensOf`, `AutoloadRules.BuildPathTokens`, `AutoloadRules.Rule.PreparePathTokens` and `AutoloadRules.Rule.GetPath`. For the path template `lib/[1|case:lower|case:upper].php`, the source's `preparePathTokens` throws ARGUMENT_VALUES_UNKNOWN, while the model builds the two `case` filters.
- `AutoloadRules.MakePlaceholder`: parses a placeholder's filters with the corrected head scan.
- `AutoloadRules.TokenOf`, `AutoloadRules.TokensOf`: build placeholders through `MakePlaceholder`, so a path template with two filters in one placeholder succeeds.
- `AutoloadRules.BuildPathTokens`, `AutoloadRules.Rule.PreparePathTokens`, `AutoloadRules.Rule.GetPath`: compute `PathTokens` with the corrected head scan.
- `Autoloading.RulePath`: matches through the class regex built with the intended "0" rewriting, and builds the path tokens with the corrected head scan.
- `Autoloading.Resolve`: uses `RulePath`, so it shares both differences.
- `LegacyAutoload.BuildExpression`: the expression is the class regex built with the intended "0" rewriting. Autoload.class.php:302 uses `empty($alt)`.
- `LegacyAutoload.AutoloadRule.PrepareExpression`: caches the expression built with the intended "0" rewriting.
- `LegacyAutoload.AutoloadRule.Match`: tests the expression built with the intended "0" rewriting.
- `LegacyAutoload.Step` uses the intended replacement `LegacyAutoload.Replacement` (see Findings). A capture "0" is kept, where `! empty(...)` at Autoload.class.php:268 drops it with its context. The replacement as written is `LegacyAutoload.ReplacementAsWritten`. The lines below name the members this reaches.
- `LegacyAutoload.Walk`, `LegacyAutoload.Substitute`: built on `Step`, so they keep a capture "0".
- `LegacyAutoload.SubstituteAll`: the loop computes `Substitute` with the intended replacement, not with the source's `! empty`.
- `LegacyAutoload.LegacyPathFor`: the path keeps a capture "0". For template `Model_[]`, path `lib/[1].php` and class `Model_0`, the model gives `lib/0.php` where the source gives `lib/.php`.
- `LegacyAutoload.AutoloadRule.GetPath`: substitutes with the intended replacement, as `LegacyPathFor` above.
- `LegacyAutoload.RulePath`, `LegacyAutoload.Resolve`: use `LegacyPathFor`, so the same "0" capture is kept.
- `LegacyAutoload.Autoload.TryRule`: goes through the expression built with the intended "0" rewriting and through the intended replacement.
- `LegacyAutoload.Autoload.Load`: differs from the legacy `load` on "0" alternatives and on "0" captures, for the two reasons above.

## Findings

| source | as written | input that shows it | evidently intended | confidence | as-written member | corrected member |
|---|---|---|---|---|---|---|
| source/framework/class/Filter.php:97 | the group `(.*)` is greedy and the closing group accepts either a bar or the end of the line, so on a one-line expression the head is everything after the leading bar (it falls back to the line's last bar only when more lines follow), and the next filters land in the first filter's arguments | the expression &#124;case:lower&#124;case:upper: the first filter gets lower&#124;case and upper as arguments and throws ARGUMENT_VALUES_UNKNOWN | one filter per bar-separated segment, as the grammar comment on line 93 and the recursive call on line 106 expect; newlines are treated as `.` and `$` treat them | high, not executed; the model's factory uses the intended scan | `Filters.GreedySwallowsNextFilter` | `Filters.IntendedTwoCaseFilters` |
| source/framework/class/Autoload.php:300 | `empty($alt)` also holds for the alternative "0", which then becomes `\w+` | the class template Model_[0&#124;1] also matches `Model_Foo` | only the empty alternative stands for any word (Autoload.class.php:302 has the same test) | medium, not executed; the model's class regex uses the intended rewriting | `AutoloadRules.ZeroAlternative` | `AutoloadRules.GroupAlternatives` |
| source/framework/class/Autoload.class.php:268 | `! empty($this->matches[$n])` also drops a capture "0", and with it the placeholder's context | template `Model_[]`, path `lib/[1].php`, class `Model_0`: the path is `lib/.php` | the capture "0" is kept, as the newer `getPath` does by testing `== ''` (Autoload.php:264) | medium, not executed; the model's legacy `getPath` uses the intended replacement | `LegacyAutoload.ZeroCaptureDropped` | `LegacyAutoload.ReplacementMatchesNewRule` |
