# chartcraft kernel and event normalisation, modelled in Dafny

This project models three pieces of the chartcraft JSON-LD template. Each is a
deterministic function over JSON values.

- **Canonicaliser** (`src/kernel/canonicalize.ts`). `canonicalize` sorts the
  keys of every object, at every depth, in the order `Array.prototype.sort`
  uses: UTF-16 code units. Arrays keep their element order.
  `stableStringify` serialises that canonical tree, compact or with a
  two-space indent. Modules: `Json` (values as ordered member lists),
  `CodeUnitOrder` (the key order and the insertion sort that realises it),
  `Canonicalize` and `Stringify`.
- **Kernel transform** (`src/kernel/transform.ts`). `transform` is total:
  - anything that is not a non-null, non-array object becomes an
    `INVALID_INPUT` error document;
  - an object without `@context` becomes an `INVALID_CONTEXT` error document;
  - any other object is copied, with a `provenance` record attached.

  Module `Kernel` also holds three document shapes: Provenance,
  TransformError and UncertaintyAnnotation. Each comes with the JSON it is
  written as and a decoder back from that JSON.
- **Event normalisation** (`examples/event-normalization/transform.ts`).
  `transformEvent` runs the kernel's validation, clones the document, and
  tries eight guarded rules in a fixed order. Each rule that fires writes one
  member and appends its name to `rules`, which becomes
  `provenance.rulesApplied`.
  - `Text` holds `titleCase`, `trim` and the string functions they use.
  - `EventStatus` holds `STATUS_MAP` and `normalizeStatus`.
  - `EventRules` states each rule as a pure function on the draft (clone plus
    rule list).
  - `EventLaws` proves what the whole pipeline does to each member.
  - `EventPipeline` follows the source's imperative shape: a class
    `EventDraft` whose fields `out` and `rules` are updated block by block.
    Each block method is proved equal to the pure rule step, so
    `TransformEvent` returns exactly `NormalizeEvent(input)`. Like the rest
    of the model it runs the corrected status table (see "## Findings"), so
    it is not the source as written on statuses that lower-case to
    `movedonline`, `constructor` or `__proto__`.

JavaScript behaviour is modelled as follows:

- **Objects** are lists of `(key, value)` pairs in insertion order, with
  unique keys at every depth (`Json.WellFormed`). So the order in which a
  caller built an object stays visible until canonicalisation.
- **Assignment** `o[k] = v` is `Json.Set`: an existing key keeps its place
  and a new key is appended. The object spread `{...out, provenance}` is
  `Kernel.Attach`.
- **Inputs** that are not JSON values (`undefined`, functions, symbols,
  bigints) are the `Host` case of `Kernel.Input`. This makes the
  `typeof !== "object"` branch reachable.
- **Copies.** `structuredClone` is a value copy. Dafny datatypes are
  immutable, so the caller's input is unchanged by construction. Every
  function is deterministic by construction, for the same reason.
- **Key order.** Dafny `char`s are Unicode scalar values. `CodeUnitOrder.Rank`
  orders them as their UTF-16 encodings are ordered: characters outside the
  Basic Multilingual Plane sort between U+D7FF and U+E000. `RankIsUtf16Order`
  proves this against explicit UTF-16 encodings of characters, and
  `BelowIsUtf16Order` lifts it to whole keys: one key sorts before another
  exactly when its UTF-16 encoding is below the other's unit by unit.

Where the code and its documentation disagree, the model follows the code:

- **Rule recording.** A rule is recorded whenever its guard holds, not only
  when it changes something. An already title-cased name is recorded as
  `normalize-event-name` (`EventLaws.RecordedWithoutChange`).
- **Type tags.** Outputs are meant to be told apart by their type tag.
  However, a valid document whose own `@type` is `"Error"` keeps that tag on
  success (`Kernel.SuccessCanCarryErrorTag`,
  `EventLaws.EventSuccessCanCarryErrorTag`). The model's `ErrorOf` tells the
  two apart by their full shape instead.
- **Arrays.** The file comment of `canonicalize.ts` speaks of "optionally
  sorting unordered arrays", but no code path does this. Arrays are never
  reordered.
- **Error documents.** The event example has its own copy of `makeError`,
  identical to the kernel's. Both are `Kernel.MakeError`.

## Model

| member | source | states |
|---|---|---|
| Canonicalize.CanonicalShape | src/kernel/canonicalize.ts:21-38 | null, booleans, numbers and strings come back unchanged; an array keeps its length and element i becomes the canonical form of element i; an object comes back as an object with strictly ascending keys and exactly the input's key set |
| Canonicalize.Canonical | src/kernel/canonicalize.ts:21-38 | the recursive `canonicalize` with the own-member assignment; what it returns is stated by `CanonicalShape`, `CanonicalObject`, `CanonicalIsCanonical`, `CanonicalIdempotent` and `CanonicalEqualIff` |
| Canonicalize.CanonicalObject | src/kernel/canonicalize.ts:31-37 | the canonical object's keys are strictly ascending in code-unit order, unique, and a permutation of the input's keys; each key's value is the canonical form of the input's value under that key |
| Canonicalize.CanonicalizeObject | src/kernel/canonicalize.ts:31-37 | the `for` loop over the sorted keys, filling a fresh object one assignment at a time, builds exactly the canonical object |
| Canonicalize.SortedKeysPresent | src/kernel/canonicalize.ts:32-35 | every key the loop visits is a member of the object being read |
| Canonicalize.CanonicalIsCanonical | src/kernel/canonicalize.ts:21-38 | the result is canonical at every depth and still has unique keys |
| Canonicalize.CanonicalFixpoint | src/kernel/canonicalize.ts:21-38 | a value that is already canonical is returned as it is |
| Canonicalize.CanonicalIdempotent | src/kernel/canonicalize.ts:21-38 | canonicalising twice gives what canonicalising once gives |
| Canonicalize.CanonicalSameUpToOrder | src/kernel/canonicalize.ts:13-20 | the canonical form differs from the input only in the order of object members, at any depth |
| Canonicalize.CanonicalRespectsKeyOrder | src/kernel/canonicalize.ts:4-7 | two values that differ only in member insertion order have the same canonical form |
| Canonicalize.CanonicalEqualIff | src/kernel/canonicalize.ts:4-7 | two values have the same canonical form if and only if they differ only in member order |
| Canonicalize.SetSameUpToOrder | src/kernel/canonicalize.ts:35 | assigning the same key to objects that agree up to order, with values that agree up to order, keeps them in agreement |
| Canonicalize.FillAsWritten | src/kernel/canonicalize.ts:33-36 | filling an object literal by plain assignment never creates an own `__proto__` member |
| Canonicalize.ProtoMemberDroppedAsWritten | src/kernel/canonicalize.ts:33-36 | as written, canonicalising an object with an own `__proto__` member loses that member, while the intended canonical form keeps it |
| Canonicalize.CanonicalAsWritten | src/kernel/canonicalize.ts:21-38 | `canonicalize` with the object literal filled by plain assignment, as written; `FillAsWritten` and `ProtoMemberDroppedAsWritten` state where it differs from `Canonical` |
| CodeUnitOrder.RankIsUtf16Order | src/kernel/canonicalize.ts:32 | comparing character ranks is the same as comparing their UTF-16 encodings unit by unit, and equal ranks mean equal characters |
| CodeUnitOrder.BelowIrreflexive | src/kernel/canonicalize.ts:32 | no key sorts before itself |
| CodeUnitOrder.BelowAsymmetric | src/kernel/canonicalize.ts:32 | two keys never each sort before the other |
| CodeUnitOrder.BelowTransitive | src/kernel/canonicalize.ts:32 | the default sort order is transitive |
| CodeUnitOrder.BelowTotal | src/kernel/canonicalize.ts:32 | of two different keys, one sorts before the other |
| CodeUnitOrder.SortKeys | src/kernel/canonicalize.ts:32 | sorting returns a permutation of the keys |
| CodeUnitOrder.SortKeysSorted | src/kernel/canonicalize.ts:32 | the sorted keys are in ascending code-unit order |
| CodeUnitOrder.SortKeysStrict | src/kernel/canonicalize.ts:32 | the distinct keys of an object sort into strictly ascending order |
| CodeUnitOrder.StrictlySortedUnique | src/kernel/canonicalize.ts:32 | two strictly ascending permutations of the same keys are equal, so the sorted order does not depend on insertion order |
| CodeUnitOrder.BelowIsUtf16Order | src/kernel/canonicalize.ts:32 | one key sorts before another exactly when the UTF-16 encoding of the first is below that of the second unit by unit, which is the default order of `Array.prototype.sort` |
| CodeUnitOrder.Utf16Decides | src/kernel/canonicalize.ts:32 | at the first differing character, the comparison of the two UTF-16 encodings is decided by those characters' encodings alone |
| Stringify.StableStringifyOfCanonical | src/kernel/canonicalize.ts:50-55 | the string depends on the value only through its canonical form |
| Stringify.StableStringifyRespectsKeyOrder | src/kernel/canonicalize.ts:40-55 | values that differ only in member order stringify identically, compact or pretty |
| Stringify.CompactIsOneLine | src/kernel/canonicalize.ts:52-54 | the compact form never contains a line break |
| Stringify.CanonicalExample | src/kernel/canonicalize.ts:26-37 | `{"b":1,"a":arr}` canonicalises to `{"a":arr,"b":1}` for a canonical array `arr` |
| Stringify.StableStringifyExample | src/kernel/canonicalize.ts:50-55 | `{"b":1,"a":[3,1,2]}` stringifies to `{"a":[3,1,2],"b":1}`: keys sorted, array order kept |
| Stringify.Serialize | src/kernel/canonicalize.ts:52-54 | `JSON.stringify` of a value with the given indent step; its output is stated through `StableStringify` by `CompactIsOneLine` and `StableStringifyExample` |
| Stringify.StableStringify | src/kernel/canonicalize.ts:50-55 | `JSON.stringify` of the canonical form, compact or with a two-space indent; `StableStringifyOfCanonical` and `StableStringifyRespectsKeyOrder` state that only the canonical form matters |
| Json.Set | examples/event-normalization/transform.ts:156 | an assignment makes the key hold the value, leaves every other key's value alone, keeps the existing keys in their order with at most the new key appended, and preserves unique keys |
| Kernel.StringsOf | src/kernel/transform.ts:26 | a decoded string array is exactly the array's items, and decoding fails exactly when the value is not an array of strings |
| Kernel.StringsRoundTrip | src/kernel/transform.ts:26 | a string array decodes back to the strings it was built from |
| Kernel.ProvenanceOf | src/kernel/transform.ts:22-27 | a decoded provenance record comes from an object with exactly the three provenance keys |
| Kernel.ProvenanceRoundTrip | src/kernel/transform.ts:22-27 | a provenance record decodes back to itself, and its JSON has unique keys |
| Kernel.StatusOf | src/kernel/transform.ts:32 | a decoded uncertainty status has the name it was read from |
| Kernel.StatusRoundTrip | src/kernel/transform.ts:32 | each of `deferred`, `assumed` and `unknown` decodes back to itself |
| Kernel.UncertaintyOf | src/kernel/transform.ts:29-35 | a decoded uncertainty annotation comes from an object with exactly its four keys |
| Kernel.UncertaintyRoundTrip | src/kernel/transform.ts:29-35 | an uncertainty annotation decodes back to itself, and its JSON has unique keys |
| Kernel.MakeError | src/kernel/transform.ts:114-126 | an error document has exactly the members `@context`, `@type`, `errorCode`, `error`, `provenance`, in that order |
| Kernel.MakeErrorRoundTrip | src/kernel/transform.ts:114-126 | an error document reads back as an error carrying its code and message, with the schema.org context, type `Error` and provenance of version 0.1.0 with no rule applied; it has unique keys |
| Kernel.ErrorOf | src/kernel/transform.ts:43-49 | reads a JSON value as a `TransformError`; `MakeErrorRoundTrip` proves it the inverse of `MakeError`, and `AttachedIsNotError` and `AttachKeepsNoError` say which documents it rejects |
| Kernel.Attach | src/kernel/transform.ts:100-107 | the spread `{...output, provenance}`; `AttachIsAttached` states its effect member by member |
| Kernel.AttachIsAttached | src/kernel/transform.ts:100-107 | the spread keeps every member other than `provenance` with its value and position, overwrites or appends `provenance`, and adds no other key |
| Kernel.AttachedIsNotError | src/kernel/transform.ts:37-49 | a document with a non-empty `rulesApplied` attached never reads as an error document |
| Kernel.AttachKeepsNoError | src/kernel/transform.ts:37-49 | a document holding a member that error documents lack never reads as an error document, whatever rules are recorded |
| Kernel.TransformErrors | src/kernel/transform.ts:80-88 | `INVALID_INPUT` exactly when the input is null, a non-object or an array; `INVALID_CONTEXT` exactly when it is an object without `@context`; no error document otherwise |
| Kernel.TransformSuccess | src/kernel/transform.ts:98-107 | a valid document comes back with every other member unchanged and in place, and with provenance decoding to version 0.1.0 and rules `["identity"]` |
| Kernel.SuccessCanCarryErrorTag | src/kernel/transform.ts:98-107 | a valid document typed `Error` succeeds and keeps `"@type":"Error"` |
| Kernel.TransformWellFormed | src/kernel/transform.ts:75-108 | every result, error or success, has unique keys at every depth |
| Kernel.TransformKeyOrderIndependent | src/kernel/transform.ts:75-108 | inputs that differ only in member order give outputs that `stableStringify` writes identically |
| Kernel.Transform | src/kernel/transform.ts:75-108 | the kernel transform; `TransformErrors`, `TransformSuccess`, `TransformWellFormed` and `TransformKeyOrderIndependent` state what it returns |
| Text.Lower | examples/event-normalization/transform.ts:38 | lower-casing keeps the length |
| Text.Split | examples/event-normalization/transform.ts:39 | splitting on whitespace runs yields at least one part, and no part contains whitespace |
| Text.SplitCollapsed | examples/event-normalization/transform.ts:39 | joining the parts of a split with single spaces gives the text with every whitespace run collapsed to one space, so the parts are exactly the text between the runs |
| Text.SplitJoin | examples/event-normalization/transform.ts:39-42 | splitting the space-joined non-empty words gives the words back |
| Text.Trim | examples/event-normalization/transform.ts:116 | the trimmed string is the slice left after removing the leading and trailing whitespace; its ends are not whitespace, and it is empty exactly when the string is all whitespace |
| Text.TrimIdempotent | examples/event-normalization/transform.ts:116 | trimming twice gives what trimming once gives |
| Text.TitleCaseShape | examples/event-normalization/transform.ts:35-43 | the result is the lower-cased words, each with its first letter upper-cased, joined by single spaces |
| Text.TitleCaseIdempotent | examples/event-normalization/transform.ts:35-43 | title-casing twice gives what title-casing once gives |
| Text.TitleCaseExample | examples/event-normalization/transform.ts:35 | `"quarterly PLANNING meeting"` becomes `"Quarterly Planning Meeting"` |
| Text.TitleCase | examples/event-normalization/transform.ts:35-43 | `titleCase`; `TitleCaseShape`, `TitleCaseIdempotent` and `TitleCaseExample` state what it returns |
| Text.CollapseWord | examples/event-normalization/transform.ts:39 | collapsing the whitespace runs of a text that starts with a word keeps that word in front |
| EventStatus.TableLookup | examples/event-normalization/transform.ts:56 | a found value belongs to an entry with the key, and nothing is found exactly when no entry has the key |
| EventStatus.MovedOnlineUnreachableAsWritten | examples/event-normalization/transform.ts:46-57 | as written, the only status normalised to the moved-online URI is that URI itself |
| EventStatus.PrototypeStatusAsWritten | examples/event-normalization/transform.ts:54-57 | as written, a status yields an inherited `Object.prototype` member exactly when it lower-cases to `constructor` or `__proto__` |
| EventStatus.ConstructorStatusAsWritten | examples/event-normalization/transform.ts:56 | as written, `"Constructor"` normalises to the inherited `constructor` function |
| EventStatus.NormalizeStatusAsWritten | examples/event-normalization/transform.ts:54-57 | `normalizeStatus` as written, with the prototype lookup and the unreachable `movedOnline` key; `MovedOnlineUnreachableAsWritten`, `PrototypeStatusAsWritten` and `NormalizeStatusAgrees` state what it returns |
| EventStatus.NormalizeStatus | examples/event-normalization/transform.ts:54-57 | the value changes exactly when it is a string whose lower-cased form is a table name, and then becomes that name's URI |
| EventStatus.NormalizeStatusIdempotent | examples/event-normalization/transform.ts:54-57 | normalising a status twice gives what normalising once gives |
| EventStatus.MovedOnlineNormalized | examples/event-normalization/transform.ts:51 | with the corrected table `"movedOnline"` normalises to the moved-online URI |
| EventStatus.PrototypeStatusUnchanged | examples/event-normalization/transform.ts:54-57 | with only the table's own names looked up, a status naming an `Object.prototype` member, in any case, is returned unchanged |
| EventStatus.NormalizeStatusAgrees | examples/event-normalization/transform.ts:46-57 | outside the three names of the findings, the code as written and the corrected table agree on every value |
| EventRules.MakeUncertainty | examples/event-normalization/transform.ts:59-72 | the result is an object with the single member `uncertainty`, which decodes to the given status, reason and references and has unique keys |
| EventRules.DurationAnnotationIs | examples/event-normalization/transform.ts:163-167 | the duration annotation is `{"uncertainty":{"@type":"Uncertainty","status":"unknown","reason":"Cannot compute duration without endDate","references":["endDate"]}}` |
| EventRules.WithType | examples/event-normalization/transform.ts:123-130 | a missing `@type` becomes the given type, an existing one is never overwritten, and no other member changes |
| EventRules.TypeAddress | examples/event-normalization/transform.ts:127-133 | only `address` can change: it changes only when it is an object, and then it is typed `PostalAddress` unless already typed |
| EventRules.TitleOrganizer | examples/event-normalization/transform.ts:138-142 | only `name` can change: a string name is title-cased, and otherwise the organizer is unchanged |
| EventRules.NameRule | examples/event-normalization/transform.ts:108-112 | rule 1 fires exactly when `name` is a string, and then writes its title case |
| EventRules.DescriptionRule | examples/event-normalization/transform.ts:114-118 | rule 2 fires exactly when `description` is a string, and then writes it trimmed |
| EventRules.LocationRule | examples/event-normalization/transform.ts:120-126 | rule 3 fires exactly when `location` is an object without `@type`, and then types it `Place` |
| EventRules.AddressRule | examples/event-normalization/transform.ts:127-133 | rule 4 fires exactly when the location object holds an address object without `@type`, and then types the address `PostalAddress` |
| EventRules.OrganizerRule | examples/event-normalization/transform.ts:136-143 | rule 5 fires exactly when `organizer` is an object with a string `name`, and then title-cases that name |
| EventRules.StatusRule | examples/event-normalization/transform.ts:145-152 | rule 6 fires exactly when `eventStatus` is present and normalising changes it, and then writes the normalised value |
| EventRules.StatusRuleAsWritten | examples/event-normalization/transform.ts:145-152 | rule 6 as written, returning whether it records its name and the `eventStatus` it leaves; `StatusRuleAgrees`, `MovedOnlineNotRecordedAsWritten` and `ConstructorRecordedAsWritten` state what it does |
| EventRules.StatusRuleAgrees | examples/event-normalization/transform.ts:145-152 | except on a string status that lower-cases to `movedonline`, `constructor` or `__proto__`, rule 6 as written records its name exactly when the corrected rule fires, and leaves the same `eventStatus` |
| EventRules.EndDateRule | examples/event-normalization/transform.ts:154-158 | rule 7 fires exactly when `endDate` is missing, and then writes `null` |
| EventRules.DurationRule | examples/event-normalization/transform.ts:160-170 | rule 8 fires exactly when `duration` is missing and `endDate` is `null`, and then writes the duration annotation |
| EventRules.EffectAssigns | examples/event-normalization/transform.ts:108-170 | a rule that fires writes its own member and nothing else |
| EventRules.Step | examples/event-normalization/transform.ts:108-170 | one guarded block: the draft after the rule's write with its name appended, or unchanged; `EffectAssigns` and the per-rule lemmas state each effect |
| EventRules.Run | examples/event-normalization/transform.ts:106-170 | the blocks one after another; `RulesApplied` and `RulesAppliedInOrder` state what is recorded |
| EventRules.NormalizeEvent | examples/event-normalization/transform.ts:92-183 | `transformEvent`; the `EventLaws` lemmas state its output member by member |
| EventLaws.RulesApplied | examples/event-normalization/transform.ts:106-170 | the recorded rules are exactly the rules, in order, whose guards hold on the input document |
| EventLaws.RulesAppliedInOrder | examples/event-normalization/transform.ts:106-170 | `rulesApplied` is a subsequence of the eight names in the fixed order, never names a rule twice, and names a rule exactly when its guard holds on the input |
| EventLaws.NameField | examples/event-normalization/transform.ts:109-112 | the output `name` is the input's title-cased when it is a string, and otherwise untouched |
| EventLaws.DescriptionField | examples/event-normalization/transform.ts:115-118 | the output `description` is the input's trimmed when it is a string, and otherwise untouched |
| EventLaws.LocationField | examples/event-normalization/transform.ts:121-134 | an object `location` is typed `Place` unless typed, and an address object inside it `PostalAddress` unless typed; any other `location` is untouched |
| EventLaws.OrganizerField | examples/event-normalization/transform.ts:137-143 | an object `organizer` has its string `name` title-cased; any other `organizer` is untouched |
| EventLaws.StatusField | examples/event-normalization/transform.ts:146-152 | a present `eventStatus` is normalised; a missing one stays missing |
| EventLaws.StatusReachesRule | examples/event-normalization/transform.ts:106-152 | no block before rule 6 touches `eventStatus`, so the rule reads the input's value |
| EventLaws.StatusOutcomeCorrected | examples/event-normalization/transform.ts:145-152 | in the corrected pipeline rule 6 is recorded exactly when its guard holds on the input, and the output `eventStatus` is the normalised input value |
| EventLaws.MovedOnlineNotRecordedAsWritten | examples/event-normalization/transform.ts:145-152 | as written, `"movedOnline"` reaches rule 6, which records nothing and keeps the value; the corrected pipeline writes the moved-online URI and records the rule |
| EventLaws.ConstructorRecordedAsWritten | examples/event-normalization/transform.ts:145-152 | as written, `"Constructor"` makes rule 6 record its name and write the inherited `constructor`; the corrected pipeline keeps the value and records nothing |
| EventLaws.EndDateField | examples/event-normalization/transform.ts:155-158 | a missing `endDate` becomes `null`; a present one is kept |
| EventLaws.DurationField | examples/event-normalization/transform.ts:161-170 | a missing `duration` becomes the annotation exactly when the input's `endDate` was missing or `null`; otherwise `duration` keeps its input value, or stays missing |
| EventLaws.EventOtherMembers | examples/event-normalization/transform.ts:173-182 | members no rule names keep their input values, provenance holds version 0.1.0 and the fired rules, and the input's keys keep their order at the front |
| EventLaws.NormalizeEventErrors | examples/event-normalization/transform.ts:94-102 | validation matches the kernel's: a non-document gives the kernel's error document, with `INVALID_INPUT` or `INVALID_CONTEXT` under the same conditions and no rule run; a document gives no error |
| EventLaws.DocumentIsNoError | examples/event-normalization/transform.ts:92-183 | the output for a document never reads as an error document |
| EventLaws.EventSuccessCanCarryErrorTag | examples/event-normalization/transform.ts:179-182 | a document typed `Error` is normalised successfully and keeps `"@type":"Error"` |
| EventLaws.NormalizeEventWellFormed | examples/event-normalization/transform.ts:92-183 | for a well-formed input every result has unique keys at every depth |
| EventLaws.NormalizeEventIdempotent | examples/event-normalization/transform.ts:92-183 | normalising the output again changes no member except `provenance` |
| EventLaws.RecordedWithoutChange | examples/event-normalization/transform.ts:109-112 | an already title-cased name is recorded as `normalize-event-name` although it is unchanged |
| EventLaws.AlreadyTitled | examples/event-normalization/transform.ts:35 | `"Quarterly Planning Meeting"` is its own title case |
| EventPipeline.EventDraft.constructor | examples/event-normalization/transform.ts:105-106 | the draft starts as the clone of the document with no rule recorded |
| EventPipeline.EventDraft.NameBlock | examples/event-normalization/transform.ts:108-112 | the block leaves the draft exactly as rule 1's step does |
| EventPipeline.EventDraft.DescriptionBlock | examples/event-normalization/transform.ts:114-118 | the block leaves the draft exactly as rule 2's step does |
| EventPipeline.EventDraft.LocationBlock | examples/event-normalization/transform.ts:120-134 | the block leaves the draft exactly as rule 3's step followed by rule 4's step does |
| EventPipeline.EventDraft.AddressBlock | examples/event-normalization/transform.ts:127-133 | the write through the location alias leaves the draft exactly as rule 4's step does |
| EventPipeline.EventDraft.OrganizerBlock | examples/event-normalization/transform.ts:136-143 | the block leaves the draft exactly as rule 5's step does |
| EventPipeline.EventDraft.StatusBlock | examples/event-normalization/transform.ts:145-152 | the block leaves the draft exactly as rule 6's step does |
| EventPipeline.EventDraft.EndDateBlock | examples/event-normalization/transform.ts:154-158 | the block leaves the draft exactly as rule 7's step does |
| EventPipeline.EventDraft.DurationBlock | examples/event-normalization/transform.ts:160-170 | the block leaves the draft exactly as rule 8's step does |
| EventPipeline.TransformEvent | examples/event-normalization/transform.ts:92-183 | the imperative transform returns the pure `NormalizeEvent(input)`, which is an error document exactly when the input is not a document |

## Left out

- Members whose value is `undefined`. JSON cannot hold them, so here a
  member is either present with a JSON value or absent. The `=== undefined`
  halves of the guards of rules 7 and 8 coincide with the missing-key case.
  Non-JSON values occur only at the top level (`Kernel.Input`). Nested
  functions or symbols would make `structuredClone` throw; they are not
  represented.
- Aliasing and sharing inside the input graph. `structuredClone` is a value
  copy, which is identity on Dafny datatypes. That the caller's input is
  unchanged therefore holds by construction and is not a separate lemma.
- JavaScript's enumeration of integer-like keys (such as `"9"` before
  `"10"`) ahead of all other keys, whatever the insertion order. Objects here
  enumerate in insertion order, and canonical objects in sorted order.
- Floating-point numbers. `JNum` holds integers, printed as `JSON.stringify`
  prints integers below 10^21; the exponent form of larger numbers is not
  modelled.
- Unicode case mapping. `toLowerCase` and `toUpperCase` change only the
  ASCII letters here, as the doc comment of `titleCase` says. Whitespace for
  `\s` and `trim` is the full ECMAScript set.
- The default value `[]` of `makeUncertainty`'s `references` parameter. The
  only call passes all three arguments.
- The command-line adapter `src/kernel/index.ts` (file reads, `JSON.parse`,
  standard output, exit codes), the test runner and the tests, and the
  purity lint `scripts/ensure-kernel-purity.ts`. These are I/O and build
  tooling, outside this model.
- Independence of `transformEvent` from member insertion order. It is
  proved for the kernel transform (`Kernel.TransformKeyOrderIndependent`) but
  not for the event pipeline.
- EventLaws.NormalizeEventIdempotent: states that a second pass changes no
  member except `provenance`. It says nothing about the second pass's
  `rulesApplied`, which can differ because guards are recorded whether or
  not they change anything.
- Canonicalize.CanonicalizeObject: runs the corrected assignment, adding every key as an own member. On an input with an own `__proto__` key it keeps that member, where the source drops it (`Canonicalize.FillAsWritten`, `Canonicalize.CanonicalAsWritten`).
- EventRules.StatusRule: uses the corrected status table. It differs from the source exactly on a string status that lower-cases to `movedonline` (mapped to the moved-online URI and recorded) or to `constructor` or `__proto__` (left alone and not recorded); `EventRules.StatusRuleAsWritten` is the rule as written and `EventRules.StatusRuleAgrees` proves the two equal on every other input.
- EventPipeline.EventDraft.StatusBlock: is proved equal to the corrected `EventRules.StatusRule`, so it differs from the source's block on the same statuses.
- EventLaws.StatusField: describes the corrected pipeline, so on the same statuses it does not describe the source's output; `EventLaws.MovedOnlineNotRecordedAsWritten` and `EventLaws.ConstructorRecordedAsWritten` state both versions side by side.
- EventPipeline.TransformEvent: runs the corrected status table, so its `eventStatus` and `rulesApplied` differ from the source's on the same statuses.
- `JSON.stringify` output beyond the `Json` type: `toJSON` methods,
  `undefined` and function members, and lone surrogates in strings. Dafny
  strings hold only Unicode scalar values.

## Findings

| source | as written | input that shows it | evidently intended | confidence | as-written member | corrected member |
|---|---|---|---|---|---|---|
| src/kernel/canonicalize.ts:33-36 | the sorted copy is filled by plain assignment into `{}`, so `sorted["__proto__"] = …` sets the new object's prototype instead of creating a member | `{"__proto__": {"a": 1}, "b": 2}` parsed with `JSON.parse` (an own `__proto__` key) canonicalises to `{"b": 2}` | every own key is kept with its canonical value | medium, not executed | Canonicalize.ProtoMemberDroppedAsWritten | Canonicalize.CanonicalObject |
| examples/event-normalization/transform.ts:46-57 | the table key is `movedOnline`, but the lookup key is lower-cased, so the entry can never match | `"eventStatus": "movedOnline"` stays `"movedOnline"` and is not recorded | the status maps to `https://schema.org/EventMovedOnline` | high, not executed | EventLaws.MovedOnlineNotRecordedAsWritten | EventStatus.MovedOnlineNormalized |
| examples/event-normalization/transform.ts:54-57 | `STATUS_MAP[key]` on an object literal also finds the members every object inherits from `Object.prototype` | `"eventStatus": "Constructor"` becomes the `Object` constructor function, and `normalize-event-status` is recorded | only the table's own names are looked up; anything else is left unchanged | high, not executed | EventLaws.ConstructorRecordedAsWritten | EventStatus.PrototypeStatusUnchanged |
