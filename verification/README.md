# PackWeb configuration validator

PackWeb keeps the owners of a family of npm packages in line with a declared
policy. The policy is a JSON document with two keys. `packages` names the
packages and `owners` names the accounts that should own them. Each key holds
either a flat list or a map from group names to lists. Constructing a
`PackWeb` object validates the policy. The validator either throws one of six
errors or returns the group names of `packages`, which the object keeps
together with the policy.

This project models that validator and the constructor (`lib/packweb.js`) as
pure Dafny functions over JSON values, and proves what they accept, what
they reject and with which message.

Modules:

- `Wrappers` (wrappers.dfy): `Option` (`None` is JavaScript's `undefined`) and `Result`.
- `Json` (json.dfy): parsed JSON values. Also JavaScript falsiness, `typeof … === 'object'`, lodash `_.size` (including its treatment of array-like objects) and property reads.
- `Strings` (strings.dfy): prefixes, substrings and what a JavaScript regular expression of the form `/a.+b.+c/` matches.
- `JsonText` (json_text.dfy): `JSON.stringify` of a string list, as used in the mismatch message, and a reader that inverts it.
- `PackWeb` (packweb.dfy): the errors and their messages, the group loop, the per-key check, `_.difference`, `validateConfig` and the constructor. Each follows the code's branches in the code's order.
- `PackWebSpec` (packweb_spec.dfy): a declarative description of the accepted policies and of each error. Each outcome is stated as a condition on the input, not as a sequence of steps. Its lemmas tie the validator to it in both directions.
- `PackWebMessages` (packweb_messages.dfy): every message reads back as its error, and each contains the phrase the test suite matches.
- `PackWebExamples` (packweb_examples.dfy): the outcomes for the test fixtures, plus examples of the one-way group test.

Behaviour of the code that is easy to miss, and that the model follows:

- An array policy is not rejected as "not an object". `typeof [] === 'object'`, so it fails later because it has no `packages` key (`ArrayConfigLacksPackages`).
- A flat list declares the single group `"all"`, not an empty group list (lib/packweb.js:29). Two flat lists therefore match. A flat list matches a map only if that map has a group named `"all"`.
- The group test is one-way: `_.difference(packages, owners)` (lib/packweb.js:40). The message says the groups must be the same, but extra `owners` groups are accepted (`ExtraOwnersGroupAccepted`).
- The result is the list of `packages` group names, not a list shared by both keys.
- The elements of the lists are never checked to be strings.
- lodash's `_.size` treats an object whose `length` property is an integer from 0 to `Number.MAX_SAFE_INTEGER` as array-like, and returns that `length`. A map such as `{length: 0, g1: ["p"]}` therefore has size 0 and is rejected as wrongly shaped, not for a bad group (`ZeroLengthMapMisshapen`). With any other `length` the map is walked like any other map. A `length` holding a number is then a bad group, reported when no earlier group is bad (`NonZeroLengthIsBadGroup`).

## Model

| member | source | states |
|---|---|---|
| Json.Lookup | lib/packweb.js:16 | reading a property finds a value exactly when the object has that key, and the value is the one stored under it |
| Json.Falsy | lib/packweb.js:10-12 | `!v` holds for exactly `null`, `false`, `0` and `""` among JSON values |
| Json.Absent | lib/packweb.js:19-21 | a missing property counts as unset, and an array or object never does, even when empty |
| Json.Size | lib/packweb.js:23 | lodash's size is the length of an array, the key count of an object without `length`, 0 for `null`, booleans and numbers, and 0 for an object exactly when it has no key or its `length` is 0 |
| PackWeb.CollectGroups | lib/packweb.js:30-37 | the group loop passes exactly when every group holds a non-empty array, and then yields the group names in enumeration order; otherwise it reports the first group (in order) that does not hold one |
| PackWeb.KeyGroups | lib/packweb.js:18-38 | a key is reported missing exactly when it is absent or falsy; a passing key declares at least one group; every failure of a key names that key |
| PackWeb.Difference | lib/packweb.js:40 | `_.difference` keeps exactly the elements of the first list that do not occur in the second, and is never longer than the first |
| PackWeb.New | lib/packweb.js:4-7 | the constructor succeeds exactly when validation does, stores the validated group names and the unchanged policy, and otherwise throws the validator's error |
| PackWeb.ValidateConfig | lib/packweb.js:9-47 | `NoConfig` is returned exactly for a falsy or missing argument; a success is a non-empty list of groups, each also an `owners` group; a mismatch error carries a `packages` group the `owners` groups lack. The full characterization is `PackWebSpec.ValidateConfigAccepts` and the `Rejects…` lemmas |
| PackWeb.Message | lib/packweb.js:11-44 | every message names what it is about: the key of a key error, the group of a bad-group error, and the `JSON.stringify` text of both lists of a mismatch. `PackWebMessages.MessageRoundTrip` shows that the message determines its error |
| JsonText.Stringify | lib/packweb.js:43-44 | the text of a list is bracketed, and is `[]` exactly for the empty list. `JsonText.StringifyRoundTrip` reads it back |
| PackWebSpec.KeyGroupsWellShaped | lib/packweb.js:22-37 | a key passes exactly when it is a non-empty array or a non-empty map of non-empty arrays, and yields `["all"]` or the map's keys |
| PackWebSpec.KeyGroupsMisshapen | lib/packweb.js:22-27 | a key gets "needs to be an array of strings or hash of groups" exactly when it is truthy but neither a non-empty array nor an object of non-zero lodash size (a string, a number, `true`, `[]`, `{}`, or an object whose `length` is 0) |
| PackWebSpec.CollectGroupsFirstBad | lib/packweb.js:32-35 | the group loop reports group `g` exactly when `g` names the first group that is not a non-empty array |
| PackWebSpec.KeyGroupsBadGroup | lib/packweb.js:30-35 | a key reports a bad group `g` exactly when it is an object of non-zero lodash size whose first bad group is `g` |
| PackWebSpec.DifferenceEmpty | lib/packweb.js:40 | the difference is empty exactly when every `packages` group is an `owners` group, so the test runs in one direction only |
| PackWebSpec.ValidateWellShaped | lib/packweb.js:39-46 | once both keys are well shaped, the policy fails with both group lists if some `packages` group is not an `owners` group, and otherwise returns the `packages` groups |
| PackWebSpec.ValidateConfigAccepts | lib/packweb.js:9-47 | the validator accepts exactly an array or object policy whose two keys are well shaped and whose `packages` groups all occur among the `owners` groups, and returns the `packages` groups |
| PackWebSpec.RejectsMissingConfig | lib/packweb.js:10-12 | "Please pass in a config object" is thrown exactly for a missing argument or `null`, `false`, `0`, `""` |
| PackWebSpec.RejectsScalarConfig | lib/packweb.js:13-15 | "needs to be an object" is thrown exactly for `true`, a non-zero number or a non-empty string |
| PackWebSpec.ArrayConfigLacksPackages | lib/packweb.js:13-20 | any array policy passes the object test and then fails for its missing `packages` key |
| PackWebSpec.RejectsMissingKey | lib/packweb.js:16-21 | a key is reported missing exactly when it is absent or falsy and, for `owners`, `packages` has already passed |
| PackWebSpec.RejectsMisshapenKey | lib/packweb.js:22-27 | a key is reported as wrongly shaped exactly when it is truthy but neither a non-empty array nor an object of non-zero lodash size and, for `owners`, `packages` has already passed |
| PackWebSpec.RejectsBadGroup | lib/packweb.js:30-35 | a bad group is reported with its key exactly when it is the first bad group of an object of non-zero lodash size and, for `owners`, `packages` has already passed |
| PackWebSpec.RejectsGroupMismatch | lib/packweb.js:40-45 | the mismatch error, with both group lists, is thrown exactly when both keys are well shaped and some `packages` group is missing from `owners` |
| PackWebSpec.PackagesCheckedFirst | lib/packweb.js:16-27 | a bad `packages` key is reported, with key `packages`, whatever `owners` holds |
| PackWebSpec.FlatAgainstFlat | lib/packweb.js:28-46 | two non-empty flat lists are accepted with the groups `["all"]` |
| PackWebSpec.FlatAgainstGrouped | lib/packweb.js:28-46 | flat `packages` against a well-shaped `owners` map is accepted exactly when the map has a group named `"all"` |
| PackWebSpec.GroupedAgainstFlat | lib/packweb.js:28-46 | a well-shaped `packages` map against flat `owners` is accepted exactly when every `packages` group is named `"all"` |
| PackWebSpec.AcceptedGroupsDistinct | lib/packweb.js:28-46 | an accepted policy yields at least one group, and no repeated group when its `packages` map repeats no key |
| JsonText.StringifyRoundTrip | lib/packweb.js:43-44 | the `JSON.stringify` text of a list of group names, followed by any text, reads back as that list and leaves the following text untouched |
| JsonText.StringifyInjective | lib/packweb.js:43-44 | different group lists are written as different text |
| PackWebMessages.MessageRoundTrip | lib/packweb.js:11-44 | every error message can be read back as the error, key, group and group lists that produced it |
| PackWebMessages.MessageInjective | lib/packweb.js:11-44 | distinct errors have distinct messages |
| PackWebMessages.TopLevelMessagesMatchTests | test/packweb-specs.js:20-33 | the top-level messages contain "pass in a config object" and "needs to be an" |
| PackWebMessages.KeyMessagesMatchTests | test/packweb-specs.js:25-43 | a missing-key message contains "needs to have"; a wrong-shape message contains "needs to be an array of strings" |
| PackWebMessages.BadGroupMessageMatchesTests | test/packweb-specs.js:44-63 | a bad-group message matches `/'<key>'.+group.+must be an array/` whenever the group name holds no line terminator |
| PackWebMessages.MismatchMessageMatchesTests | test/packweb-specs.js:64-70 | a mismatch message starts with "Packages and owners must have the same groups" |
| PackWebExamples.FlatFixturesAccepted | test/fixtures.js:2-12 | the flat fixtures are accepted with the groups `["all"]` |
| PackWebExamples.GroupedFixtureAccepted | test/fixtures.js:13-21 | the grouped fixture is accepted with `["group1", "group2"]`, and the constructed object keeps both the groups and the policy |
| PackWebExamples.TopLevelFixturesRejected | test/fixtures.js:23-30 | no argument, `[]`, `'foo'` and the policies lacking one key fail with the expected error |
| PackWebExamples.PackagesFixturesRejected | test/fixtures.js:31-46 | the bad `packages` fixtures fail with the wrong-shape or bad-group error for `packages` |
| PackWebExamples.OwnersFixturesRejected | test/fixtures.js:47-54 | the bad `owners` fixtures fail with the wrong-shape or bad-group error for `owners` |
| PackWebExamples.GroupFixturesRejected | test/fixtures.js:55-62 | disjoint group maps fail with a mismatch carrying `["group1"]` and `["group2"]` |
| PackWebExamples.ExtraOwnersGroupAccepted | lib/packweb.js:40-45 | an `owners` group that `packages` lacks does not cause a rejection |
| PackWebExamples.ExtraPackagesGroupRejected | lib/packweb.js:40-45 | a `packages` group that `owners` lacks causes a rejection |
| PackWebExamples.FlatListIsGroupAll | lib/packweb.js:28-29 | a flat list matches an `owners` map with a group `"all"` and is rejected against a map without one |
| PackWebExamples.ZeroLengthMapMisshapen | lib/packweb.js:23-27 | a `packages` map whose `length` property is 0 is rejected as wrongly shaped, although it holds a good group |
| PackWebExamples.NonZeroLengthIsBadGroup | lib/packweb.js:30-35 | the map `{g1: ["pack1"], length: 2}` is walked, and `length`, its first bad group, is reported |

## Left out

- lib/cli.js, lib/parser.js and index.js: reading the policy from a file, URL or argument, argument parsing, console rendering and process start-up are I/O. The model starts from an already parsed JSON value.
- Ownership status, owner updates, repository lookup, publish status and version counting: lib/cli.js calls these on the `PackWeb` object, but lib/packweb.js defines no such method. lib/packweb.js is the only source of this model.
- Numbers: `Json.Value` holds integers only. Fractions and `NaN` are not modelled; `NaN` would be falsy in JavaScript. A fractional `length` property, which lodash does not accept as a length, is therefore not modelled either.
- Strings: a Dafny `string` is a sequence of Unicode scalar values, not of UTF-16 code units. `JSON.parse` can produce a string holding a lone surrogate (from `"\ud800"`), which `JSON.stringify` writes back as `\ud800`; `Json.Value` cannot hold such a string, so that case of the mismatch message is not modelled.
- Values that `JSON.parse` cannot produce are not modelled: functions, symbols, `undefined` inside objects, class instances and inherited properties.
- Property order: JavaScript lists integer-like keys first, in ascending order, and other keys in insertion order. An `Obj` is taken to list its entries already in that order; the reordering itself is not modelled.
- Json.Lookup: returns the first entry carrying the key. It says nothing about objects that repeat a key, because no JavaScript object does.
- JsonText.StringifyRoundTrip: the reader is a partner for the proof. It reads only the text that `JSON.stringify` writes for a list of strings, with no white space and no surrogate pairs in `\u` escapes. It is not a general JSON parser.
- Lodash version: lib/packweb.js calls `_.pairs`, which only lodash 3 provides, so the model follows lodash 3's `_.pairs`, `_.size` and `_.difference`, as lib/packweb.js and its tests assume. For these inputs `_.size` and `_.difference` behave the same in lodash 4. Under lodash 4, which lib/cli.js uses, `_.pairs` does not exist and every array or object policy would fail with a `TypeError` at lib/packweb.js:18; that failure is not modelled.
- The `Error` object's name, stack and other properties: only its message is modelled.
