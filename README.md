# CellLocator core in Dafny

CellLocator is an Android app that lists the cells a phone can see. It asks for location and phone-state permissions
first. This project models the app's decision logic, file by file:

- **`NetworkTypes`** (`network_type.dfy`). The app's `NetworkType` enum has seven variants with codes 0–6. Its
  decoder `fromValue` maps every other code to `Unknown`.
- **`Cells`** (`cell.dfy`). The mutable `Cell` record is a class with all seventeen of its fields:
  - the eNB/gNB number is the cell id divided by 256 with Kotlin's truncating `/`;
  - the sector is the Kotlin `%` remainder by 256;
  - `isActive` is derived from the connection role;
  - `setActive`, the single mutator, sets the role to Primary or None.

  The ghost snapshot `Fields()` and the pure function `Activated` state the whole effect of `setActive` on the record.
- **`NodeNamer`** (`node_namer.dfy`). It has two constant tables. One maps a network type to the name of its radio
  node ("Cell", "NB", "eNB", "gNB"). The other maps an upper-cased free-form label to a node name. Both lookups fall
  back to "Unknown".
- **`PermissionCheck`** (`permission_check.dfy`). The check filters the permission list down to the ones not
  granted. If any are missing, it makes one batched request. It returns whether none were missing.
  - The platform's answer to "is this granted?" is a set `granted`.
  - An activity is reduced to a log of the requests made through it, so "exactly one request, for exactly the
    missing permissions, in list order" can be stated.
- **`MainActivity`** (`main_activity.dfy`). The activity's private copy of the check uses its fixed list: fine
  location, coarse location and phone state. The content's `permissionsGranted` state starts false and is set once,
  by an effect keyed on a constant. It selects the main scaffold or the permission-required screen.

Points about the code that shape the model:
- Permission state is one boolean, `permissionsGranted`. It starts false and is assigned once by `LaunchedEffect(Unit)`.
  Nothing re-checks it on resume, and there is no separate "checking" or "denied" state.
- Every field of the cell record is a `var`, and the cell id is a signed `Long`. The model therefore also covers
  negative ids, with Kotlin's truncating `/` and `%` (`Cells.NegativeIdTruncates`).
- The record stores a `sectorId` field that nothing ties to `cellId`. The model keeps it as an independent field.
- The string table has a "UMTS" key but no "WCDMA" key, so the label "WCDMA" resolves to "Unknown"
  (`NodeNamer.NodeNameOfUnlistedLabels`). The typed table does list the WCDMA network type.
- Connection roles come from the scanning library. The code only tests for the primary and secondary roles and
  creates the primary and none roles.

## Model

| member | source | states |
|---|---|---|
| `NetworkTypes.NetworkType.Value` | app/src/main/java/com/celllocator/app/enums/NetworkType.kt:3-10 | every code lies in 0..6, and code 0 belongs to Unknown alone |
| `NetworkTypes.FromValue` | app/src/main/java/com/celllocator/app/enums/NetworkType.kt:13-23 | a code in 0..6 decodes to the variant carrying that code; any other integer decodes to Unknown (total, never fails) |
| `NetworkTypes.ValueInjective` | app/src/main/java/com/celllocator/app/enums/NetworkType.kt:4-10 | two variants have the same code iff they are the same variant |
| `NetworkTypes.FromValueRoundTrip` | app/src/main/java/com/celllocator/app/enums/NetworkType.kt:13-23 | decoding the code of any variant gives that variant back |
| `NetworkTypes.FromValueUnknownIff` | app/src/main/java/com/celllocator/app/enums/NetworkType.kt:21-22 | decoding gives Unknown exactly for 0 and for integers outside 0..6 |
| `Cells.TruncDiv` | app/src/main/java/com/celllocator/app/entities/Cell.kt:28 | Kotlin `/ 256`: rounds toward zero, agrees with Euclidean division for non-negative ids, and leaves a remainder strictly between -256 and 256 with the dividend's sign |
| `Cells.TruncRem` | app/src/main/java/com/celllocator/app/entities/Cell.kt:30 | Kotlin `% 256`: quotient × 256 + remainder rebuilds the id, the remainder lies in -255..255 with the id's sign, and equals Euclidean `%` for non-negative ids |
| `Cells.TruncDivUnique` | app/src/main/java/com/celllocator/app/entities/Cell.kt:28-30 | any quotient and remainder with those properties are the ones TruncDiv and TruncRem give |
| `Cells.Activated` | app/src/main/java/com/celllocator/app/entities/Cell.kt:35-36 | the record after setting the role: Primary iff active, never Secondary, every other field as before |
| `Cells.ActivatedIdempotent` | app/src/main/java/com/celllocator/app/entities/Cell.kt:35-36 | setting the role twice with the same flag equals setting it once |
| `Cells.ActivatedLastWins` | app/src/main/java/com/celllocator/app/entities/Cell.kt:35-36 | of two successive role settings only the second matters |
| `Cells.Cell.constructor` | app/src/main/java/com/celllocator/app/entities/Cell.kt:8-26 | every field holds its argument; the string fields default to "?" |
| `Cells.Cell.GetEnbNumber` | app/src/main/java/com/celllocator/app/entities/Cell.kt:28 | for a non-negative id the node number is `cellId / 256` and non-negative; for a negative id it lies between the id and 0, and the id minus 256 × node number lies in -255..0 (rounding toward zero) |
| `Cells.Cell.GetSector` | app/src/main/java/com/celllocator/app/entities/Cell.kt:30 | node number × 256 + sector == cellId; the sector lies in -255..255 with the id's sign and, for a non-negative id, equals `cellId % 256` in 0..255 |
| `Cells.NegativeIdTruncates` | app/src/main/java/com/celllocator/app/entities/Cell.kt:28-30 | for a negative id the node number and sector are the truncated quotient and remainder; id -1 gives node 0 and sector -1 |
| `Cells.Cell.IsActive` | app/src/main/java/com/celllocator/app/entities/Cell.kt:32-33 | a cell is active iff its role is not None (so iff Primary or Secondary) |
| `Cells.Cell.SetActive` | app/src/main/java/com/celllocator/app/entities/Cell.kt:35-36 | the whole record becomes `Activated(old record, active)`: role Primary with IsActive true, or None with IsActive false; cell id, node number and sector unchanged |
| `NodeNamer.NodeName` | app/src/main/java/com/celllocator/app/util/NodeNamer.kt:23-25 | the typed lookup returns one of the five node labels, and "Unknown" for every type the table does not list |
| `NodeNamer.NodeNameTable` | app/src/main/java/com/celllocator/app/util/NodeNamer.kt:6-12 | Gsm→"Cell", Wcdma→"NB", Lte→"eNB", Nr→"gNB", Unknown→"Unknown"; Cdma and Tdscdma, not listed, give "Unknown" |
| `NodeNamer.UpperChar` | app/src/main/java/com/celllocator/app/util/NodeNamer.kt:29 | a lower-case ASCII letter becomes its own capital; every other character is left alone; no lower-case letter comes out |
| `NodeNamer.Upper` | app/src/main/java/com/celllocator/app/util/NodeNamer.kt:29 | upper-casing keeps the length, maps each character by UpperChar, and leaves no lower-case letter |
| `NodeNamer.UpperOfUpper` | app/src/main/java/com/celllocator/app/util/NodeNamer.kt:29 | a label without lower-case letters is its own upper-case form |
| `NodeNamer.UpperIdempotent` | app/src/main/java/com/celllocator/app/util/NodeNamer.kt:29 | upper-casing twice is upper-casing once |
| `NodeNamer.NodeNameOfLabel` | app/src/main/java/com/celllocator/app/util/NodeNamer.kt:27-29 | the label lookup returns one of the five node labels, and "Unknown" whenever the upper-cased label is not a table key; it never fails |
| `NodeNamer.NodeNameOfLabelIgnoresCase` | app/src/main/java/com/celllocator/app/util/NodeNamer.kt:28-29 | looking up a label gives the same name as looking up its upper-case form |
| `NodeNamer.NodeNameOfLabelCaseBlind` | app/src/main/java/com/celllocator/app/util/NodeNamer.kt:28-29 | two labels whose characters agree after upper-casing get the same node name |
| `NodeNamer.NodeNameOfLabelInverse` | app/src/main/java/com/celllocator/app/util/NodeNamer.kt:14-21 | "Cell" iff the label is GSM, "NB" iff UMTS, "eNB" iff LTE, "gNB" iff NR, 5G or NR SA, "Unknown" iff not a key (all ignoring case) |
| `NodeNamer.NodeNameOfLteSpellings` | app/src/main/java/com/celllocator/app/util/NodeNamer.kt:17 | "lte", "Lte" and "LTE" all give "eNB" |
| `NodeNamer.NodeNameOfLowerCaseLabels` | app/src/main/java/com/celllocator/app/util/NodeNamer.kt:15-16 | "gsm" gives "Cell" and "umts" gives "NB" |
| `NodeNamer.NodeNameOfNrLabels` | app/src/main/java/com/celllocator/app/util/NodeNamer.kt:18-20 | "nr", "5g" and "Nr Sa" all give "gNB" |
| `NodeNamer.NodeNameOfUnlistedLabels` | app/src/main/java/com/celllocator/app/util/NodeNamer.kt:14-21 | "WCDMA", "wcdma" and the empty label give "Unknown" |
| `NodeNamer.TypedNamesHaveLabels` | app/src/main/java/com/celllocator/app/util/NodeNamer.kt:6-21 | every name of the typed table other than "Unknown" is also the name of some label |
| `NodeNamer.LabelNamesHaveTypes` | app/src/main/java/com/celllocator/app/util/NodeNamer.kt:6-21 | every name of the label table is also the name of some network type |
| `PermissionCheck.NotGranted` | app/src/main/java/com/celllocator/app/util/PermissionCheck.kt:11-13 | a permission is in the result iff it is in the list and not granted; the result is empty iff every listed permission is granted |
| `PermissionCheck.NotGrantedCounts` | app/src/main/java/com/celllocator/app/util/PermissionCheck.kt:11-13 | each missing permission occurs in the result as often as in the list; a granted one not at all |
| `PermissionCheck.NotGrantedIsSubsequence` | app/src/main/java/com/celllocator/app/util/PermissionCheck.kt:11-13 | the result keeps the list's order |
| `PermissionCheck.NotGrantedSingleton` | app/src/main/java/com/celllocator/app/util/PermissionCheck.kt:11-13 | a one-permission list is missing that permission iff it is not granted |
| `PermissionCheck.NotGrantedAppend` | app/src/main/java/com/celllocator/app/util/PermissionCheck.kt:11-13 | filtering a concatenation is the concatenation of the filtered parts |
| `PermissionCheck.Activity.RequestPermissions` | app/src/main/java/com/celllocator/app/util/PermissionCheck.kt:16 | a request appends exactly one entry, with the given permissions and request code, to the activity's log |
| `PermissionCheck.CheckAndRequestPermissions` | app/src/main/java/com/celllocator/app/util/PermissionCheck.kt:9-19 | returns true iff every listed permission is granted. If so, nothing is requested. Otherwise exactly one request is logged, for exactly the missing permissions in list order, with code 0. Every permission requested is listed and not granted |
| `MainActivity.RequiredMissing` | app/src/main/java/com/celllocator/app/MainActivity.kt:57-65 | the missing subset of fine location, coarse location and phone state, written out case by case in that order |
| `MainActivity.CheckAndRequestPermissions` | app/src/main/java/com/celllocator/app/MainActivity.kt:56-72 | returns true iff all three are granted; then nothing is requested, otherwise one request for the missing subset is logged |
| `MainActivity.MainActivityContent.constructor` | app/src/main/java/com/celllocator/app/MainActivity.kt:89 | `permissionsGranted` starts false, so the permission-required screen is selected before the check runs |
| `MainActivity.MainActivityContent.SelectedView` | app/src/main/java/com/celllocator/app/MainActivity.kt:97-185 | the main scaffold is shown iff `permissionsGranted`, the permission-required screen iff not |
| `MainActivity.MainActivityContent.RunLaunchedEffect` | app/src/main/java/com/celllocator/app/MainActivity.kt:92-97 | the first run stores the check's result, and the main scaffold is then selected iff all three permissions are granted. A missing subset is requested once. A later run changes nothing and requests nothing |

## Left out

- The Compose user interface is not modelled: the cards, the lists, the navigation bar, the spinner, the
  permission-required screen's contents and the settings button with its intent. It is rendering and navigation only.
- The route metadata in `Screen` and the `CellDetails` record are not modelled: they hold data without behaviour.
- `getBuildNumber` in the build script is not modelled: it reads the clock and uses floating point.
- The platform permission APIs are not modelled: the model uses a `granted` set and a request log. The asynchronous
  answer to the permission dialog, the `context` argument and the array conversion are not modelled.
- `permissionsArray`, which the shared check reads, is not part of this model, so it is a parameter.
- The scanning library's `IConnection` classes and its `NetworkType` are local datatypes with the referenced variants.
  The typed lookup compares the exact variant. Any subclass structure of the library's classes, which `::class`
  keys would distinguish, is not modelled.
- `NodeNamer.Upper`: upper-cases ASCII letters only. The locale-dependent and Unicode case mapping of `uppercase` is
  not modelled. No table key contains an "I", so the Turkish dotted-I mapping cannot change a listed key's result.
  Labels with other non-ASCII letters may differ.
- `rxFrequency` and `txFrequency` are `real` fields that are never computed on. IEEE double behaviour is not
  modelled.
- Kotlin data-class members (`equals`, `copy`, `hashCode`, `toString`) are not modelled: the core does not use them.
- The 32-bit bound on `fromValue`'s argument is not modelled separately. The model takes an unbounded integer,
  which includes every 32-bit `Int`.
