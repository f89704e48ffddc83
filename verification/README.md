# Filter pipeline and translation lookup of AsTeRICS Ergo Grid

This project models two pieces of the grid application's client services in Dafny.

1. **The live/database filter pipeline** (`filterService`). Objects move between their
   in-memory "live" form and their stored form. Every object gets its own chain of
   filter functions, computed from its own `modelVersion`. It is folded through
   that chain from left to right, and every filter receives the same filter options.
   - Saving runs the conversion steps and then encryption.
   - Loading runs decryption (only when the stored major version is truthy) and
     then the conversion steps.
   - The conversion steps are empty at the latest major version. Otherwise they
     are a single step that stamps `modelVersion` with the latest version string.
   - A bare object or a one-element array comes back bare. A longer array comes
     back as an array. An empty array gives `undefined`.
2. **The translation lookup** (`translateService.translate`). It picks the table for
   the requested language, falling back to English. It looks the key up, falling
   back to the key itself. Then each extra argument in turn replaces the first
   `{?}` left in the string.

Modules:
- `Wrappers`: the `Option` type.
- `ModelVersions`: parsed versions, the latest version `{"major": 1, "minor": 0, "patch": 0}`, and JavaScript truthiness of `major`.
- `FilterService`: records, filters, chain construction and application, and `filterObjects` with its two public wrappers.
- `FilterProperties`: properties relating saving, loading and the collaborators.
- `Placeholders`: first-occurrence replacement and placeholder counting.
- `TranslateService`: the two tables and `translate`.

The services the pipeline calls but does not define are fields of the
`Collaborators` datatype: `modelUtil.getModelVersionObject` (`versionOf`),
`encryptionService.encryptObject` (`encrypt`) and
`encryptionService.decryptObjects` (`decrypt`). The chain and conversion
properties hold for every choice of them; the lemmas below that need more
say so in their `requires`.
`modelUtil.getLatestModelVersion()` is taken to be the parsed `MODEL_VERSION`
constant, and `modelUtil.getModelVersionString()` that constant's string.
The round-trip and idempotence lemmas state their assumptions about the
collaborators as predicates:
- decryption undoes encryption;
- encryption keeps `modelVersion`;
- the parser reads the latest version string back as the latest major.

The `{label: "Bye"}` example additionally assumes that the parser gives a
version without `major` for a missing `modelVersion` field.

Four behaviours of the code that are easy to miss:
- At the latest major version the conversion chain is empty, so no stamp step runs (src/js/service/data/filterService.js:92-93).
- The decryption guard is a truthiness test, so a `major` of `0` is treated as legacy, like a missing one (src/js/service/data/filterService.js:79).
- A one-element array comes back as a bare object (src/js/service/data/filterService.js:58), although the function's documentation promises a list of converted objects (src/js/service/data/filterService.js:48).
- A record whose major version is newer than the latest is not rejected. It gets the stamp step like any outdated record (src/js/service/data/filterService.js:92-96).

## Model

| member | source | states |
|---|---|---|
| FilterService.Trace | src/js/service/data/filterService.js:54-56 | filters run in list order: filter i receives what filter i-1 returned, together with the identical options; the last object seen is the chain's result |
| FilterService.RunChainSnoc | src/js/service/data/filterService.js:54-56 | appending a filter to a chain hands the chain's output to that filter |
| FilterService.RunChainAppend | src/js/service/data/filterService.js:54-56 | running two chains one after the other equals running their concatenation |
| FilterService.ConversionChain | src/js/service/data/filterService.js:91-119 | the conversion chain is empty iff the major equals the latest major; otherwise it ends with the stamp step; it never encrypts or decrypts |
| FilterService.ToDatabaseChain | src/js/service/data/filterService.js:66-70 | the save chain is the conversion chain followed by encryption, encryption occurs only last, and at the latest major it is exactly encryption |
| FilterService.FromDatabaseChain | src/js/service/data/filterService.js:77-83 | the load chain starts with decryption iff the parsed major is truthy, decrypts nowhere else, continues with the conversion chain, and at the latest major is exactly decryption |
| FilterService.FilterAll | src/js/service/data/filterService.js:51-57 | output position i is input object i run through the chain computed from its own version; lengths agree |
| FilterService.FilterObjects | src/js/service/data/filterService.js:50-59 | the result is an array iff more than one object went in, is undefined iff none went in, and is otherwise the bare converted object; array elements are converted position by position |
| FilterService.FilterObjectsInPlace | src/js/service/data/filterService.js:50-59 | the source's nested loop, overwriting each array slot with every filter's output, computes the same result as the fold |
| FilterService.ConvertLiveToDatabaseObjects | src/js/service/data/filterService.js:19-24 | a bare object is saved bare; an array of several objects is saved element by element in order |
| FilterService.ConvertDatabaseToLiveObjects | src/js/service/data/filterService.js:32-37 | a bare object is loaded bare; an array of several objects is loaded element by element in order |
| FilterProperties.ConversionStampsOutdated | src/js/service/data/filterService.js:91-117 | the conversion steps leave an object at the latest major untouched, and give any other object the latest version string while keeping every other field |
| FilterProperties.ToDatabaseEncryptsLast | src/js/service/data/filterService.js:66-69 | saving is encryption applied to the result of the conversion steps |
| FilterProperties.FromDatabaseDecryptsFirst | src/js/service/data/filterService.js:77-82 | loading is the conversion steps applied to the decrypted object when the major is truthy, and to the object itself otherwise |
| FilterProperties.LatestObjectOnlyEncryptedOrDecrypted | src/js/service/data/filterService.js:92-93 | an object at the latest major is saved as just its encryption and loaded as just its decryption |
| FilterProperties.LegacyObjectFromDatabase | src/js/service/data/filterService.js:77-117 | an object with missing or zero major is never decrypted when loaded, and comes back with the latest version string and its other fields unchanged |
| FilterProperties.LegacyExample | src/js/service/data/filterService.js:32-37 | `{label: "Bye"}` without a version loads as `{label: "Bye"}` stamped with the latest version |
| FilterProperties.RoundTrip | src/js/service/data/filterService.js:19-37 | loading what was saved restores every field other than the version, and the version read back is the latest major |
| FilterProperties.ToDatabaseIdempotent | src/js/service/data/filterService.js:19-37 | saving, loading and saving again gives the same stored object as saving once |
| FilterProperties.BatchElementsIndependent | src/js/service/data/filterService.js:51-57 | equal objects in any two batches convert to equal objects, whatever else the batches hold |
| Placeholders.FirstPlaceholder | src/js/service/translateService.js:14 | a position it reports holds `{?}` |
| Placeholders.FirstPlaceholderIsLeftmost | src/js/service/translateService.js:14 | the reported position is the leftmost `{?}`, and none is reported exactly when the string holds no `{?}` |
| Placeholders.ReplaceFirst | src/js/service/translateService.js:14 | a string without `{?}` is unchanged; otherwise the text before the first `{?}` is kept, that `{?}` becomes the argument, and the rest follows unchanged |
| Placeholders.ReplaceWithoutPlaceholder | src/js/service/translateService.js:14 | one substitution into a string without `{?}` leaves it unchanged |
| Placeholders.CountZeroIff | src/js/service/translateService.js:14 | the placeholder count is zero exactly when the string holds no `{?}` |
| Placeholders.SubstituteSnoc | src/js/service/translateService.js:13-15 | arguments are used in order: the last argument replaces the first placeholder left by all earlier ones |
| Placeholders.SubstituteWithoutPlaceholder | src/js/service/translateService.js:13-15 | substituting any arguments into a string without `{?}` leaves it unchanged |
| Placeholders.ReplaceRemovesOnePlaceholder | src/js/service/translateService.js:14 | with a non-empty argument free of `{`, `?` and `}`, one substitution removes exactly one placeholder |
| Placeholders.SubstituteCount | src/js/service/translateService.js:13-15 | with such arguments, each argument uses up one placeholder until none is left |
| Placeholders.ArgumentCanCompletePlaceholder | src/js/service/translateService.js:14 | an argument without `{?}` can still leave the count unchanged: `{?{?}` with `}` gives `{?}` |
| TranslateService.TableFor | src/js/service/translateService.js:11 | German uses the German table, every other language the English one |
| TranslateService.BaseString | src/js/service/translateService.js:12 | the template is the table entry for the key when that entry exists and is non-empty; when it is missing or empty, the template is the key itself |
| TranslateService.Translate | src/js/service/translateService.js:10-17 | with no arguments, or with a template without `{?}`, the result is the template |
| TranslateService.TranslateCount | src/js/service/translateService.js:13-15 | with clean arguments, the result holds one placeholder fewer than the template per argument, down to none |
| TranslateService.TranslateLoop | src/js/service/translateService.js:10-17 | the source's loop over the extra arguments computes the same string as the fold |
| TranslateService.TablesShareKeys | src/js/service/translateService.js:19-58 | the English and German tables define the same keys, and these are the only two tables |
| TranslateService.ListedKeysNeverFallBack | src/js/service/translateService.js:11-58 | a listed key translates, in every language, to its table entry, which differs from the key |
| TranslateService.UnknownLanguageFallsBackToEnglish | src/js/service/translateService.js:11 | a language without a table translates exactly as English does |

## Left out

- Debug logging in the two public conversion functions: it does not affect the result.
- `getLang`: it reads the browser's `navigator.language`, so the language is a parameter instead.
- The encryption service and the model utilities are not part of this model. Their functions are uninterpreted fields of `Collaborators`, and the latest version is taken from src/js/util/constants.js:4.
- The commented-out per-version upgrade `switch`: it is dead code, so the upgrade table is empty and an outdated object only gets the stamp step.
- In-place mutation and aliasing of the input array and objects: the pipeline is modelled as pure functions on values.
- Exceptions thrown by a filter or a collaborator: the collaborators are total functions here, so error propagation is not modelled.
- `undefined` or `null` passed as the object: `Record` is always an object.
- Non-numeric `major` values such as strings or `NaN`: `major` is an optional integer.
- JavaScript `replace` special `$` patterns in replacement strings, and coercion of non-string arguments: arguments are plain strings that are inserted literally.
- Keys and languages that name inherited object properties (such as `constructor`): tables are plain maps.
- src/js/service/actionService.js (data access and speech synthesis) and the other constants of src/js/util/constants.js: browser I/O and plain names with no logic.
- Placeholders.ReplaceRemovesOnePlaceholder: requires the argument to be non-empty and free of `{`, `?` and `}`. The weaker condition "the argument holds no `{?}`" does not suffice, as Placeholders.ArgumentCanCompletePlaceholder shows.
- Placeholders.SubstituteCount: same condition on every argument, for the same reason.
- TranslateService.TranslateCount: same condition on every argument, for the same reason.
