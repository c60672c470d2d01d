# Verified model of the ECI tables, the minimal-ECI input contract and the wallet store

This project is a Dafny model of three parts of a web wallet that renders QR codes. Each part is modelled together with proofs about it.

* **CharacterSets** (`character_sets.dfy`) models the ZXing table of Character Set ECIs, following the Extended Channel Interpretations of section 5.3.1.1 of ISO/IEC 18004.
  * The 27-member `CharacterSetValueIdentifiers` enumeration is modelled, together with its reverse mapping.
  * The 27 static `CharacterSetECI` instances are modelled with their exact ECI values, canonical names and aliases.
  * The class's three static maps are fields of `Registry`. Its constructor runs the static initialisers in declaration order. `Registry.Register` is the `CharacterSetECI` constructor: a `for` loop over the values and one over the aliases, each doing `Map.set`. `Register` is proved against the one-step registration `Registered`, and the constructor against the fold `RegisterAll` of all 27 registrations.
  * The lookups by value and by name, `getValue` and `equals` are pure functions. They take the maps as an explicit `Tables` value. The two lookups' results on the initialised maps are characterised completely against an independent reference assignment (`ValueOwner`, `NameOwner`). `getValue` and `equals` have lemmas of their own about the static instances.
* **EciInput** (`eci_input.dfy`) models the planned output of `MinimalECIInput`: a sequence of units, each a byte, an ECI or FNC1.
  * The accessors `length`, `charAt`, `subSequence`, `isECI`, `isFNC1`, `getECIValue` and `getFNC1Character` are modelled. Their two documented exceptions become a `Result` failure.
  * `GoverningEci` gives the ECI in force at each position.
  * `HonoursPriority` states the constructor's priority-charset rule as a predicate over a per-character charset assignment.
* **WalletStore** (`wallet_store.dfy`) models the `WalletState` record and the store around it.
  * The record's default is modelled.
  * `setWalletState` shows each field's own presence test, and shows that `enableAuthorize` is never set.
  * `resetWalletState` is modelled.
  * `setWalletState` returns the authorize-info request it starts. The service is chosen from the network flag as it is before the update, because the request starts before the update's own `isTestNet` assignment (lines 61 and 75-77).
  * The completion of `getAuthorizeInfo` is modelled, whose reply list is an input.
  * The proxied object is a field of class `Store`. The browser-storage copy is a ghost field.

Where the documentation and the code of `CharacterSetECI.js` differ, the model follows the code:
* An in-range ECI value with no descriptor throws `FormatException`. The doc comment (lines 236-241) says `null` is returned.
* An unknown name also throws, although its doc comment (lines 252-256) says `null`.
* Out-of-range and unassigned values throw the same exception with the same message, `'incorect value'`.

## Model

| member | source | states |
|---|---|---|
| CharacterSets.Ordinal | src/deps/zxing/dist/esnext/core/common/CharacterSetECI.js:20-49 | each enumeration member's number lies in 0..26 |
| CharacterSets.FromOrdinal | src/deps/zxing/dist/esnext/core/common/CharacterSetECI.js:20-49 | the enumeration's reverse mapping is defined exactly on 0..26 and returns the member with that number |
| CharacterSets.OrdinalRoundTrip | src/deps/zxing/dist/esnext/core/common/CharacterSetECI.js:20-49 | number then reverse mapping gives back every member |
| CharacterSets.DeclarationOrderIsDense | src/deps/zxing/dist/esnext/core/common/CharacterSetECI.js:20-49 | the static instances are declared in enumeration order: the i-th one declared has identifier i, for all 27 |
| CharacterSets.ValueOwnerMatchesDeclarations | src/deps/zxing/dist/esnext/core/common/CharacterSetECI.js:66-193 | an ECI value is declared by a descriptor exactly when the reference assignment gives it to that descriptor |
| CharacterSets.NameOwnerMatchesDeclarations | src/deps/zxing/dist/esnext/core/common/CharacterSetECI.js:66-193 | a name or alias is declared by a descriptor exactly when the reference naming gives it to that descriptor |
| CharacterSets.EnterEffect | src/deps/zxing/dist/esnext/core/common/CharacterSetECI.js:205-214 | setting a sequence of keys to one instance adds exactly those keys, all mapped to it, and keeps every other entry |
| CharacterSets.RegisterAllStep | src/deps/zxing/dist/esnext/core/common/CharacterSetECI.js:66-193 | creating one more instance extends the registration fold by exactly one registration |
| CharacterSets.EnterAllLastWriter | src/deps/zxing/dist/esnext/core/common/CharacterSetECI.js:205-214 | after a series of registrations a key is present exactly when some instance set it, and it maps to the last instance that set it |
| CharacterSets.TableAt | src/deps/zxing/dist/esnext/core/common/CharacterSetECI.js:66-193 | the table has 27 instances and the one with identifier id sits at position id |
| CharacterSets.TableIdentifiersAreDense | src/deps/zxing/dist/esnext/core/common/CharacterSetECI.js:20-49 | value identifiers are 0..26, one per descriptor, each equal to its declaration position |
| CharacterSets.TableValuesAreDistinct | src/deps/zxing/dist/esnext/core/common/CharacterSetECI.js:66-193 | no ECI value is declared by two different descriptors |
| CharacterSets.TableNamesAreDistinct | src/deps/zxing/dist/esnext/core/common/CharacterSetECI.js:66-193 | no name or alias is declared by two different descriptors |
| CharacterSets.InitialIdentifiers | src/deps/zxing/dist/esnext/core/common/CharacterSetECI.js:205 | after initialisation VALUE_IDENTIFIER_TO_ECI has exactly the keys 0..26, each mapped to the instance with that identifier |
| CharacterSets.InitialValue | src/deps/zxing/dist/esnext/core/common/CharacterSetECI.js:207-211 | after initialisation every declared value maps to its own descriptor: no later registration overwrote it |
| CharacterSets.InitialName | src/deps/zxing/dist/esnext/core/common/CharacterSetECI.js:206-214 | after initialisation every declared name and alias maps to its own descriptor |
| CharacterSets.InitialValueSound | src/deps/zxing/dist/esnext/core/common/CharacterSetECI.js:207-211 | every key of VALUES_TO_ECI is an assigned value and maps to its owner |
| CharacterSets.InitialNameSound | src/deps/zxing/dist/esnext/core/common/CharacterSetECI.js:206-214 | every key of NAME_TO_ECI is a declared name and maps to its owner |
| CharacterSets.Construct | src/deps/zxing/dist/esnext/core/common/CharacterSetECI.js:196-204 | the built instance keeps identifier, name and aliases; a single number is stored as a one-element array, an array as given |
| CharacterSets.Declared | src/deps/zxing/dist/esnext/core/common/CharacterSetECI.js:66-193 | every static declaration has at least one ECI value, and all its values lie in 0..899 |
| CharacterSets.StaticEci | src/deps/zxing/dist/esnext/core/common/CharacterSetECI.js:66-204 | the static instance of each identifier carries that identifier and a non-empty set of values within 0..899 |
| CharacterSets.GetCharacterSetEciByValue | src/deps/zxing/dist/esnext/core/common/CharacterSetECI.js:242-251 | succeeds exactly when the value is in 0..899 and has an entry in VALUES_TO_ECI, returning that entry; every failure is `FormatException('incorect value')` |
| CharacterSets.GetCharacterSetEciByName | src/deps/zxing/dist/esnext/core/common/CharacterSetECI.js:257-263 | succeeds exactly when the name has an entry in NAME_TO_ECI, returning that entry; every failure is `FormatException('incorect value')` |
| CharacterSets.GetValue | src/deps/zxing/dist/esnext/core/common/CharacterSetECI.js:233-235 | defined exactly when some value is stored, and then the first stored value |
| CharacterSets.Equals | src/deps/zxing/dist/esnext/core/common/CharacterSetECI.js:264-270 | true exactly when the argument is an instance with the same name, whatever its other fields; false for a non-instance |
| CharacterSets.ByValueFindsDeclared | src/deps/zxing/dist/esnext/core/common/CharacterSetECI.js:242-251 | every ECI value of every descriptor resolves back to that descriptor |
| CharacterSets.ByValueMatchesOwner | src/deps/zxing/dist/esnext/core/common/CharacterSetECI.js:242-251 | the value lookup on any integer returns the owner under the reference assignment, and throws `FormatException('incorect value')` when there is none |
| CharacterSets.ValueOwnerDomain | src/deps/zxing/dist/esnext/core/common/CharacterSetECI.js:66-193 | the assigned values are exactly 0..13, 15..18, 20..30 and 170 |
| CharacterSets.ByValueSucceedsExactlyOn | src/deps/zxing/dist/esnext/core/common/CharacterSetECI.js:242-251 | the value lookup succeeds exactly on 0..13, 15..18, 20..30 and 170, with a descriptor that declares the value |
| CharacterSets.ByValueRejectsUnassigned | src/deps/zxing/dist/esnext/core/common/CharacterSetECI.js:237-249 | in-range values with no descriptor (14, 19, 31..899 except 170) throw the same exception instead of giving null |
| CharacterSets.ByValueRejectsOutOfRange | src/deps/zxing/dist/esnext/core/common/CharacterSetECI.js:243-245 | any value below 0 or at least 900 throws, whatever the maps hold |
| CharacterSets.ByNameFindsDeclared | src/deps/zxing/dist/esnext/core/common/CharacterSetECI.js:257-263 | each canonical name and alias resolves back to its descriptor |
| CharacterSets.ByNameMatchesOwner | src/deps/zxing/dist/esnext/core/common/CharacterSetECI.js:257-263 | the name lookup on any string returns the owner under the reference naming, and throws otherwise; it succeeds exactly on strings some descriptor declares |
| CharacterSets.SingleValueIsStoredAlone | src/deps/zxing/dist/esnext/core/common/CharacterSetECI.js:199-203 | a descriptor built with one number stores the one-element array holding it, and getValue returns it |
| CharacterSets.GetValueRoundTrip | src/deps/zxing/dist/esnext/core/common/CharacterSetECI.js:233-235 | getValue of every descriptor is defined and resolves back to that descriptor |
| CharacterSets.AsciiReportsFirstValue | src/deps/zxing/dist/esnext/core/common/CharacterSetECI.js:185-190 | ASCII reports 27 although 170 resolves to ASCII too |
| CharacterSets.EqualsIsEquivalence | src/deps/zxing/dist/esnext/core/common/CharacterSetECI.js:264-270 | equals is reflexive, symmetric and transitive, and false for a non-instance |
| CharacterSets.StaticEqualsIsIdentity | src/deps/zxing/dist/esnext/core/common/CharacterSetECI.js:264-270 | two static instances are equal exactly when they are the same instance |
| CharacterSets.Registry.constructor | src/deps/zxing/dist/esnext/core/common/CharacterSetECI.js:59-193 | creating the 27 static instances in order leaves the three maps equal to the full registration fold |
| CharacterSets.Registry.Register | src/deps/zxing/dist/esnext/core/common/CharacterSetECI.js:196-215 | the built instance's fields; each map after the loops equals the old map with the identifier, every value, the name and every alias set to the new instance |
| EciInput.GetFnc1Character | src/deps/zxing/dist/esnext/core/common/MinimalECIInput.d.ts:16-20 | in a well-formed input, the value -1 (not GS1) means no unit is FNC1 |
| EciInput.Length | src/deps/zxing/dist/esnext/core/common/MinimalECIInput.d.ts:21-27 | the length is the number of bytes plus FNC1 characters plus ECIs |
| EciInput.CharAt | src/deps/zxing/dist/esnext/core/common/MinimalECIInput.d.ts:29-45 | succeeds exactly on in-range non-ECI positions; an index out of bounds gives IndexOutOfBounds, an ECI gives IllegalArgument; the result is the byte value or the FNC1 character |
| EciInput.SubSequence | src/deps/zxing/dist/esnext/core/common/MinimalECIInput.d.ts:46-66 | fails with IndexOutOfBounds exactly on bad bounds and otherwise fails exactly when an ECI lies in the range; on success has length end - start and holds charAt of each position |
| EciInput.IsEci | src/deps/zxing/dist/esnext/core/common/MinimalECIInput.d.ts:67-78 | fails with IndexOutOfBounds exactly outside 0..length-1; otherwise tells whether the unit is an ECI |
| EciInput.IsFnc1 | src/deps/zxing/dist/esnext/core/common/MinimalECIInput.d.ts:79-90 | fails with IndexOutOfBounds exactly outside 0..length-1; otherwise tells whether the unit is FNC1 |
| EciInput.GetEciValue | src/deps/zxing/dist/esnext/core/common/MinimalECIInput.d.ts:91-109 | succeeds exactly at in-range ECI units with their ECI value; out of bounds gives IndexOutOfBounds, a non-ECI gives IllegalArgument |
| EciInput.LengthCountsEveryUnit | src/deps/zxing/dist/esnext/core/common/MinimalECIInput.d.ts:21-27 | any unit sequence has as many units as bytes plus FNC1 characters plus ECIs, by induction |
| EciInput.CharAtOrEciValue | src/deps/zxing/dist/esnext/core/common/MinimalECIInput.d.ts:29-109 | at every in-range position exactly one of charAt and getECIValue succeeds, the latter exactly where isECI is true |
| EciInput.Fnc1ReadsAsFnc1Character | src/deps/zxing/dist/esnext/core/common/MinimalECIInput.d.ts:20-45 | where isFNC1 holds, charAt returns getFNC1Character |
| EciInput.CharAtOfValidInput | src/deps/zxing/dist/esnext/core/common/MinimalECIInput.d.ts:16-45 | in a well-formed input each character read is a byte 0..255, or the FNC1 character of GS1 input (never -1) |
| EciInput.EmptySubSequence | src/deps/zxing/dist/esnext/core/common/MinimalECIInput.d.ts:51-52 | subSequence(i, i) is empty for every i from 0 to the length |
| EciInput.SubSequenceSlices | src/deps/zxing/dist/esnext/core/common/MinimalECIInput.d.ts:46-57 | splitting a successful range at any midpoint gives the two matching slices of its result |
| EciInput.GoverningEci | src/deps/zxing/dist/esnext/core/common/MinimalECIInput.d.ts:99-101 | a position has a governing ECI exactly when an ECI precedes it, and that ECI is the nearest one before it |
| EciInput.EciGovernsUntilNext | src/deps/zxing/dist/esnext/core/common/MinimalECIInput.d.ts:99-101 | an ECI governs every later position up to the next ECI, or to the end of the input |
| EciInput.GoverningEciStepsOverNonEci | src/deps/zxing/dist/esnext/core/common/MinimalECIInput.d.ts:99-101 | the governing ECI changes only at ECI units |
| EciInput.HonoursPriority | src/deps/zxing/dist/esnext/core/common/MinimalECIInput.d.ts:11-15 | the rule assigns a charset to every character; when the supported priority charset encodes the whole text, it holds exactly for the assignment that uses the priority charset everywhere |
| EciInput.UniformNeedsNoSwitch | src/deps/zxing/dist/esnext/core/common/MinimalECIInput.d.ts:11-15 | an assignment that uses one charset throughout needs no charset switch |
| EciInput.PriorityCoveringTextGivesOneRun | src/deps/zxing/dist/esnext/core/common/MinimalECIInput.d.ts:11-15 | when the supported priority charset encodes the whole text, every character is assigned to it and no switch occurs |
| EciInput.PriorityIgnoredWhenUnsupported | src/deps/zxing/dist/esnext/core/common/MinimalECIInput.d.ts:12-15 | a missing or unsupported priority charset places no constraint on the assignment |
| WalletStore.AuthorizeEndpoint | src/lib/store/index.ts:38-39 | the test service is used exactly when isTestNet is true |
| WalletStore.Default | src/lib/store/index.ts:24-33 | with nothing stored, optional fields are unset, the tip flag is true, the address list empty, and both other flags false |
| WalletStore.Updated | src/lib/store/index.ts:56-77 | for every field, an argument that passes the field's presence test overwrites it (strings when truthy; the flags and the address list whenever present, false and [] included; device data becomes merge(old, arg)), and an argument that fails it keeps the old value; enableAuthorize never changes |
| WalletStore.Cleared | src/lib/store/index.ts:82-88 | reset gives the default record except that hardwareWalletTipsShow is kept |
| WalletStore.Authorized | src/lib/store/index.ts:43 | the flag is always assigned, to the boolean whether the reply lists at least two addresses, and nothing else changes |
| WalletStore.AuthorizeRequestFor | src/lib/store/index.ts:37-42 | a request is started exactly for a truthy address, sends that address, and goes to the test service exactly when the flag before the update is true |
| WalletStore.Store.constructor | src/lib/store/index.ts:20-35 | the stored record when one exists, the default record otherwise; storage unchanged |
| WalletStore.Store.SetWalletState | src/lib/store/index.ts:46-79 | the new record is the update applied under each field's presence test; the returned request is the one the old record and the update start; storage holds the new record |
| WalletStore.Store.ResetWalletState | src/lib/store/index.ts:81-90 | the new record is the cleared record; storage holds it |
| WalletStore.Store.ApplyAuthorizeInfo | src/lib/store/index.ts:43-44 | only enableAuthorize changes, always set to the boolean whether the reply lists more than one address; storage is not written |
| WalletStore.EmptyUpdateIsIdentity | src/lib/store/index.ts:56-77 | setWalletState({}) leaves the record unchanged |
| WalletStore.EmptyStringsAreIgnored | src/lib/store/index.ts:56-65 | an empty protocol, address or coin type is falsy and leaves the record unchanged |
| WalletStore.FalseOverwritesFlags | src/lib/store/index.ts:66-77 | false overwrites hardwareWalletTipsShow and isTestNet |
| WalletStore.EmptyAddressListOverwrites | src/lib/store/index.ts:72-74 | an empty address list is truthy and replaces the current list |
| WalletStore.EnableAuthorizeIsNotSet | src/lib/store/index.ts:46-79 | the enableAuthorize argument has no effect on the result |
| WalletStore.UpdateIsIdempotent | src/lib/store/index.ts:56-77 | repeating an update changes nothing more, provided merging the same device data twice equals merging it once |
| WalletStore.ClearedForgetsAllButTips | src/lib/store/index.ts:81-88 | two records reset to the same record exactly when their tip flags agree |
| WalletStore.ClearedIsIdempotent | src/lib/store/index.ts:81-89 | resetting twice equals resetting once |
| WalletStore.ClearedAfterUpdate | src/lib/store/index.ts:46-90 | reset after any update equals reset of the original record with only the tip flag as updated |
| WalletStore.DefaultIsResetFixpoint | src/lib/store/index.ts:24-33 | resetting a store that holds the default record changes nothing |
| WalletStore.RequestUsesFlagBeforeUpdate | src/lib/store/index.ts:37-77 | setWalletState with address "A" and isTestNet true on the default record posts to the main service while the record ends on the test network |

## Left out

- Text encoding: the charset names are opaque strings. The TextEncoder-based conversion that the port note at `CharacterSetECI.js:62-65` refers to is not modelled.
- `getValueIdentifier` and `getName` are plain field reads and are not modelled separately.
- Lookup arguments that are not integers or strings are not modelled, because the model's types (`int`, `string`) exclude them. This includes non-integer numbers such as 2.5, which pass the range check and then throw.
- `values` is an `Int32Array`, which wraps values outside the 32-bit range when built; the model stores unbounded integers. Every value of the static table lies in 0..170, so no value of the table is affected.
- The `instanceof` test of `equals` is modelled by an `Option`: `None` stands for every non-instance argument.
- The minimisation algorithm of `MinimalECIInput` is not modelled: `addEdge`, `addEdges`, `encodeMinimally` and `InputEdge`. Only its declaration is available. `ECIEncoderSet` and `Charset` are imported names whose declarations are not part of this model. The model has no cost model and no choice of a minimal plan when no priority charset is given.
- The numeric encoding of units inside `MinimalECIInput` is not modelled: the units are a datatype. That encoding is private and undeclared.
- `haveNCharacters` is not modelled: it is declared without documentation, so the model has nothing to state about it.
- `EciInput.HonoursPriority` takes the relation saying which charset "can encode" which character as a parameter. Which characters a charset can encode is not modelled.
- Browser storage is a ghost copy of the record. `JSON.stringify`/`JSON.parse` are taken to reproduce the record, and the storage read at load is the constructor's argument.
- `getAuthorizeInfo` is modelled by the request `SetWalletState` returns and by its completion, `ApplyAuthorizeInfo`. The Axios request itself and the order in which replies arrive relative to other updates are not modelled.
- lodash `merge` is a parameter. Its in-place mutation of the old device-data object is not modelled because that object is not otherwise observed.
- valtio's `proxy`, `snapshot` and `useSnapshot`, and the getters `useWalletState` and `getWalletState`, are not modelled. They are framework plumbing with no logic.
- `WalletProtocol` and `CoinType` are kept as strings: `../constant` is not part of this model. A value counts as truthy exactly when it is a non-empty string.
- `null` arguments to `setWalletState` are excluded; only `undefined` (None) is modelled.
- The React UI files, `ConnectDidConnector.ts` and `WriterException.ts` are not part of this model.
