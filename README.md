# go-minio: storage listings and JWT gate, modelled in Dafny

This project models two parts of the go-minio file server.

**storage/minio.go**

- `normalizePath` builds object keys from a client directory and a file name.
- A per-user prefix `userID/[path/]` bounds each listing.
- `ListUserFiles` scans that prefix. It collects the files directly under it and the names of the folders below it.
- `ListUserFilesWithDetails` does the same scan. It also keeps one folder record per folder (item count, latest modification time), the files' int64 total size, the latest file time, and the unit that `formatSizeBytes` picks for that total.
- `getFolderList` and the folder slice turn maps into lists.
- `buildFolderStructure` turns a flat list of keys into a nested tree of folders and files.

**auth/jwt.go**

- Login against the built-in user and password tables (`AuthenticateUser`).
- The claims that `GenerateToken` and `GenerateRefreshToken` put in a token.
- The checks of `ValidateToken`, in order: signing method, signature, expiry.
- The subject lookup of `RefreshAccessToken`.
- `GetTokenFromRequest`.
- The decisions of `JWTMiddleware` and `AdminOnlyMiddleware`: answer a preflight, refuse with 401 or 403, or stamp the verified identity on the request headers and pass the request on.

**How the model is built**

- The object store's listing is an input sequence of records. Each record is an object or a stream error, and the first error ends the listing.
- Each loop is a Dafny method. It is proved against reference functions over that sequence: `FilesOf`, `FoldersOf`, `ItemCount`, `FolderMapOf`, `SumSizes` and `Latest`.
- The properties the listings promise are lemmas about those functions.
- The loop body of each listing is its own method (`ListOne`, `ScanOne`), proved to take the reference values one record further.
- Go map iteration order is unspecified. It is modelled as an arbitrary choice of the next key.
- The request is a class whose header map the middleware updates in place.
- The JWT library is abstract up to its time check. A decoded token records its signing method, its claims, and whether its signature verifies under the server secret. The decoding of a token string and the time of the request are parameters of the gate.
- The expiry check is concrete, as golang-jwt v5 does it by default: at time `now`, a token with an `exp` claim is valid only while `now` is strictly before it, and a token without one never expires.

Modules, one per file: `Results`, `GoStrings` (the part of Go's `strings` package the code uses), `StorageTypes`, `StorageSize`, `StorageKeys`, `StorageTree`, `StorageListing`, `StorageDetails`, `AuthTokens` and `AuthGate`.

**Where the code differs from its documented behaviour**

The model follows the code in each case.

- `normalizePath` removes only one slash at each end, so it is not idempotent: the directory `//d//` gives `/d/`, and `/d/` gives `d`. See `StorageKeys.NotIdempotent`.
- Dot segments are neither resolved nor rejected (`StorageKeys.DotSegmentsKept`).
- The listing prefix trims every slash at both ends. The path `/` still appends a slash and scans `u//` (`StorageKeys.ListPrefixOfSlashes`).
- A `.keep` marker of the listed folder itself has the relative path `.keep`. It appears as a folder named `.keep` (`StorageListing.SubFolderListingExample`).
- Any relative path ending in `.keep` counts as a marker, `x.keep` included (`StorageListing.MarkerCases`).
- `normalizePath` and `SaveFileWithPath` (storage/minio.go:330-356) do not prepend a user ID: the key is the directory and the file name only. The per-user prefix that the listings scan is therefore not enforced when keys are written; `StorageKeys.ListPrefixMatchesKey` holds only for a caller that prepends `userID + "/"` itself.
- In `buildFolderStructure` a later file with the same key does not undo an earlier one when records come between. An earlier file leaf at "a/x" sends a later "a/x/z" to "a/z", where it survives a second "a/x"; without the earlier file it would be lost (`StorageTree.EarlierLeafRedirects`, `StorageTree.ZLostWithoutLeaf`). Overwriting with no trace holds only for consecutive records (`StorageTree.Overwrite`).
- A refresh token passes `ValidateToken`, so the gate admits it with an empty user ID and role, for 7 days rather than the 24 hours of an access token (`AuthGate.RefreshTokenPassesGate`, `AuthTokens.RefreshTokenValidates`).
- A user without a password entry logs in with the empty password (`AuthTokens.MissingPasswordAcceptsEmpty`).

## Model

| member | source | states |
|---|---|---|
| GoStrings.TrimPrefix | storage/minio.go:161 | a matched prefix followed by the result is the input; otherwise the input is unchanged |
| GoStrings.HasPrefix | auth/jwt.go:130 | the empty prefix always matches, and a matching prefix is never longer than the string |
| GoStrings.HasPrefixPointwise | auth/jwt.go:130 | HasPrefix holds iff the prefix is no longer than the string and matches its first characters one by one |
| GoStrings.HasSuffix | storage/minio.go:164 | the empty suffix always matches, and a matching suffix is never longer than the string |
| GoStrings.HasSuffixPointwise | storage/minio.go:164 | HasSuffix holds iff the suffix is no longer than the string and matches its last characters one by one |
| GoStrings.TrimSuffix | storage/minio.go:165 | the result followed by a matched suffix is the input; otherwise the input is unchanged |
| GoStrings.ReplaceAll | storage/minio.go:343 | same length, each `from` replaced by `to` and every other character kept, no `from` left |
| GoStrings.TrimLeft | storage/minio.go:144 | the result is a suffix of the input, only cutset characters were dropped, and it does not start with one |
| GoStrings.TrimRight | storage/minio.go:144 | the result is a prefix of the input, only cutset characters were dropped, and it does not end with one |
| GoStrings.Trim | storage/minio.go:144 | the result is the slice of the input between a leading and a trailing run of the cutset character, and neither starts nor ends with it; all cutset gives ""; an untrimmed string is kept |
| GoStrings.IndexOf | storage/minio.go:174 | the index of the first occurrence of the character |
| GoStrings.Split | storage/minio.go:174 | at least one piece; no separator gives the whole string; otherwise the first piece is everything before the first separator |
| GoStrings.JoinSplit | storage/minio.go:116 | no piece holds the separator, and joining the pieces gives back the string |
| GoStrings.SplitJoin | storage/minio.go:116 | splitting the join of separator-free pieces gives back the pieces |
| StorageTypes.Wrap64 | storage/minio.go:270 | the result is an int64 congruent to the exact value modulo 2^64; an in-range value is unchanged |
| StorageSize.FormatSizeBytes | storage/minio.go:440-451 | below 1024 (negatives included) the size is shown in bytes; otherwise the divisor is 1024^(exp+1), the quotient lies in [1, 1024), and exp indexes "KMGTPE" without running past "E" |
| StorageSize.DescribesUnique | storage/minio.go:442-449 | at most one label describes a size, so the loop's answer is the only one |
| StorageSize.FitsUnique | storage/minio.go:446-449 | at most one unit gives a quotient in [1, 1024) |
| StorageSize.FitsOrder | storage/minio.go:446-449 | a larger unit leaves a quotient below 1 once a smaller one left one below 1024 |
| StorageSize.PowBound | storage/minio.go:446-450 | a divisor that fits in an int64 has exp at most 6, the length of "KMGTPE" |
| StorageSize.PowSevenOverflows | storage/minio.go:450 | 1024^7 exceeds the int64 range |
| StorageSize.DescribesExamples | storage/minio.go:440-451 | 1536 bytes is scaled by 1024 to K, 1048576 by 1048576 to M; 1023 and -5 stay in bytes; the unit letters are K first, M second and E last |
| StorageKeys.NormalizedDir | storage/minio.go:343-349 | after every backslash becomes a slash, one leading '/' is removed when present and then one trailing '/'; the result has no backslash and is never longer than the input |
| StorageKeys.NormalizePath | storage/minio.go:337-356 | the key ends in the file name; an empty path, or one that cleans to "", gives only the file name; otherwise the key is the cleaned directory, "/" and the file name |
| StorageKeys.CanonicalKept | storage/minio.go:343-355 | a canonical directory is kept as it is, so its key is `d/filename` |
| StorageKeys.EquivalentSpellings | storage/minio.go:343-355 | "/d/", "d", d written with backslashes and "\\d" written with backslashes all give the key `d/filename` |
| StorageKeys.FramedDir | storage/minio.go:346-349 | the framing slashes of "/d/" are removed |
| StorageKeys.BackslashDir | storage/minio.go:343 | backslashes read as slashes |
| StorageKeys.LeadingBackslashDir | storage/minio.go:343-346 | a leading backslash is removed as the leading slash |
| StorageKeys.OnlyOneSlashTrimmed | storage/minio.go:346-349 | "//d" gives the key `/d/filename` and "d//" gives `d//filename` |
| StorageKeys.DotSegmentsKept | storage/minio.go:337-356 | "../d" and "d/.." are kept in the key unchanged |
| StorageKeys.NotIdempotent | storage/minio.go:343-355 | "//d//" cleans to "/d/", which cleans further to "d": cleaning is not idempotent |
| StorageKeys.DoubledDir | storage/minio.go:346-349 | one slash of each doubled pair is removed |
| StorageKeys.IdempotentWhenClean | storage/minio.go:343-349 | cleaning a second time changes nothing iff the cleaned directory is empty or neither starts nor ends with a slash |
| StorageKeys.ListPrefix | storage/minio.go:142-145 | the prefix starts with `userID/`; an empty path gives just that; otherwise the path trimmed of all slashes and a "/" follow |
| StorageKeys.ListPrefixOfSlashes | storage/minio.go:142-145 | "//d//" lists `u/d/`, while the path "/" lists `u//` |
| StorageKeys.TrimDoubled | storage/minio.go:144 | Trim removes a doubled slash at each end of a canonical directory |
| StorageKeys.TrimOnlySlash | storage/minio.go:144 | Trim of "/" is "" |
| StorageKeys.TrimFramed | storage/minio.go:144 | Trim keeps a canonical directory and removes the slashes framing it |
| StorageKeys.ListPrefixCanonical | storage/minio.go:142-145 | a canonical directory, bare or framed, lists `u/d/` |
| StorageKeys.ListPrefixMatchesKey | storage/minio.go:142-145 | for a canonical directory, `userID + "/"` followed by normalizePath's key for a file equals the listing prefix followed by the file name, for the bare and the slash-framed spelling |
| StorageTree.ChildrenOf | storage/minio.go:121-126 | a missing part is entered as a fresh empty folder, an existing folder with its own children |
| StorageTree.Lookup | storage/minio.go:120-126 | a node is found only under a name present at the level; a one-part path finds exactly the node at that name; a longer one descends only through a folder |
| StorageTree.Walked | storage/minio.go:115-131 | the path the walk takes is no longer than the key's parts and ends in the file name |
| StorageTree.BuildFolderStructure | storage/minio.go:112-135 | the tree is the fold of the per-file insertion over the list; the last file is found where its walk ends, under its full key when no directory part meets a file leaf, and a slash-free last name sits at the root |
| StorageTree.InsertFound | storage/minio.go:115-131 | an inserted file is found under the path its walk took |
| StorageTree.WalkedFull | storage/minio.go:115-131 | when no directory part of a key meets a file leaf, the walk descends through every part |
| StorageTree.InsertFoundAtKey | storage/minio.go:115-131 | without such a collision the inserted file is found under its own key |
| StorageTree.Insert | storage/minio.go:116-131 | one record's insertion never removes a name from the level it starts at, and it adds the first part there unless that is a file leaf (deeper, a last part naming a folder replaces that folder's subtree) |
| StorageTree.BuildTree | storage/minio.go:113-132 | each record keeps every root name already present, and a non-empty list gives a non-empty tree |
| StorageTree.FileLeafKept | storage/minio.go:121-126 | a file leaf met as a directory part is neither replaced nor entered |
| StorageTree.FileStays | storage/minio.go:121-131 | a file leaf stays a file leaf whatever is inserted |
| StorageTree.Overwrite | storage/minio.go:130-131 | a file inserted immediately after one with the same key overwrites it and leaves no other trace |
| StorageTree.EarlierLeafRedirects | storage/minio.go:121-130 | with "a/x", then "a/x/z", then "a/x" again, the leaf "x" sends "z" next to it under "a", and "z" survives the second "a/x" |
| StorageTree.ZLostWithoutLeaf | storage/minio.go:116-130 | without the first "a/x", "a/x/z" builds a folder "x" that the later "a/x" replaces, so "z" is lost |
| StorageTree.CollisionExample | storage/minio.go:121-126 | with a file "a" at the root, the key "a/b.txt" puts "b.txt" at the root next to it |
| StorageListing.Classify | storage/minio.go:164-185 | a relative path is a marker iff it ends in ".keep", and is skipped iff it is empty |
| StorageListing.Relative | storage/minio.go:161 | a key under the prefix is the prefix followed by the relative path; any other key is kept whole |
| StorageListing.FileOf | storage/minio.go:178-183 | the file entry is named by the path below the prefix and copies the record's size, time and content type |
| StorageListing.ClassifySpec | storage/minio.go:164-185 | the branches partition relative paths: marker iff it ends in ".keep"; nested iff it has '/' and is no marker, yielding the slash-free first segment; leaf iff non-empty, slash-free and no marker; skipped iff empty |
| StorageListing.FilesOfMember | storage/minio.go:176-185 | a file is listed iff some record is a leaf with exactly that name and metadata |
| StorageListing.FilesOf | storage/minio.go:176-185 | at most one file per record |
| StorageListing.FoldersOf | storage/minio.go:164-175 | every listed folder is added by some record of the scan |
| StorageListing.ItemCount | storage/minio.go:245-255 | at most one item per record |
| StorageListing.SumSizes | storage/minio.go:270 | the exact total lies between the number of files times the int64 minimum and times the int64 maximum; no files give 0 |
| StorageListing.FilesOfAppend | storage/minio.go:152-186 | files keep scan order: the files of a concatenated scan are the concatenation |
| StorageListing.FileNamesAreLeaves | storage/minio.go:176-185 | every listed name is non-empty, slash-free and not a marker |
| StorageListing.FoldersOfMember | storage/minio.go:164-175 | a folder is listed iff some record names it |
| StorageListing.NestedGivesFirstSegment | storage/minio.go:173-175 | a nested record adds only its first segment and no file |
| StorageListing.MarkerCases | storage/minio.go:164-170 | markers never become files or count as items; "x.keep" adds the folder "x.keep", ".keep" adds ".keep", "/.keep" adds nothing |
| StorageListing.RelativeUnder | storage/minio.go:161 | stripping the prefix from a key built on it gives the rest |
| StorageListing.KindUnder | storage/minio.go:161-176 | a record under the prefix is classified by the rest of its key |
| StorageListing.ClassifyLeafExample | storage/minio.go:176 | "f1.txt" is a file |
| StorageListing.ClassifyMarkerExample | storage/minio.go:164-168 | "sub/.keep" marks the folder "sub" |
| StorageListing.ClassifyBareMarkerExample | storage/minio.go:164-168 | ".keep" marks a folder named ".keep" |
| StorageListing.ClassifyDottedExample | storage/minio.go:164-168 | "x.keep" marks a folder named "x.keep" |
| StorageListing.ClassifyNestedExample | storage/minio.go:173-175 | "sub/f.txt" belongs to the folder "sub" |
| StorageListing.RootListingExample | storage/minio.go:152-185 | keys "u/f1.txt" and "u/sub/.keep" list the file "f1.txt" and the folder "sub" |
| StorageListing.SubFolderListingExample | storage/minio.go:164-185 | listing a folder d with its marker and "f1.txt" shows the file and a folder ".keep" |
| StorageListing.TwoEntries | storage/minio.go:152-186 | the files and folders of a two-record scan, record by record |
| StorageListing.WrapAdd | storage/minio.go:270 | wrapping after every addition is wrapping the exact sum once |
| StorageListing.GetFolderList | storage/minio.go:303-309 | each key of the set appears exactly once, in some order |
| StorageListing.ListOne | storage/minio.go:160-185 | one record takes the files and the folder set from their values over the records seen to their values with this record |
| StorageListing.ListUserFiles | storage/minio.go:138-197 | fails iff the scan holds an error, and then with the first error's message; otherwise returns path and userID as given, exactly the leaf files in scan order, and each folder of the scan exactly once |
| StorageDetails.AddEntry | storage/minio.go:229-258 | a record naming no folder leaves the map alone; one naming n adds n to the keys and changes no other folder, and a marker leaves an existing record of n alone |
| StorageDetails.NewFolder | storage/minio.go:233-253 | a folder first named by a record is named after it and starts with kind "folder", zero items and that record's time |
| StorageDetails.Bump | storage/minio.go:255-258 | one more item, name and kind kept, and the time becomes the later of the record's and the folder's |
| StorageDetails.FolderMapOf | storage/minio.go:229-258 | every folder record is filed under its own name with kind "folder" |
| StorageDetails.Latest | storage/minio.go:218-274 | never before the zero time, and the zero time when there are no files |
| StorageDetails.LatestIsMax | storage/minio.go:272-274 | latestModified is the zero time or the time of a file, and no earlier than the zero time or any file's time |
| StorageDetails.LatestIgnoresEarlyFiles | storage/minio.go:272-274 | files all stamped at or before the zero time leave latestModified at the zero time |
| StorageDetails.TotalStep | storage/minio.go:270 | the running int64 total plus one more file is the wrapped sum of all sizes |
| StorageDetails.FolderAt | storage/minio.go:229-258 | a name has a folder record iff some record names it; the record carries the name, kind "folder" and the number of nested records under it; its time is the creating record's time or a later counted record's time, and no earlier than any of them |
| StorageDetails.FolderMapKeys | storage/minio.go:229-258 | the folder records are exactly the folders of ListUserFiles |
| StorageDetails.MarkerOnlyFolder | storage/minio.go:229-243 | a folder with only its marker has zero items and the marker's time |
| StorageDetails.EntryEffect | storage/minio.go:228-275 | per branch: a marker creates its folder when absent and counts nothing; a nested record creates its folder when absent and bumps it; any other record leaves the folders alone and is a file iff its relative path is non-empty |
| StorageDetails.AddEntryNamed | storage/minio.go:245-258 | a record naming a folder creates it when absent and bumps it when it counts |
| StorageDetails.AddEntryOther | storage/minio.go:245-258 | a record naming another folder leaves this one alone |
| StorageDetails.FolderSlice | storage/minio.go:279-282 | each folder record appears exactly once, visiting the keys in some order |
| StorageDetails.CountItem | storage/minio.go:247-258 | the folder is created when absent, then gains one item, and takes the record's time when that is later |
| StorageDetails.ScanOne | storage/minio.go:225-275 | one record takes every accumulator from its value over the records seen to its value with this record |
| StorageDetails.ScanDetails | storage/minio.go:214-276 | fails iff the scan holds an error, with the first error's message; otherwise the files, folder records, wrapped total, file count and latest time equal the reference definitions |
| StorageDetails.ListUserFilesWithDetails | storage/minio.go:200-299 | as ListUserFiles for errors and files; statistics count the files, sum their sizes in int64, show the unit formatSizeBytes picks, and give the latest file time; each folder record appears once and equals its reference record, and totalFolders is the number of folders |
| AuthTokens.AuthenticateUser | auth/jwt.go:109-122 | succeeds iff the user exists and the password equals its table entry (a missing entry reads as ""), returning the stored user; "user not found" iff the user is missing, otherwise "invalid password" |
| AuthTokens.GenerateToken | auth/jwt.go:56-83 | an HS256 token with a valid signature carrying the user's ID, name, email and role, issuer "minio-cloud-storage", issued now, and expired exactly from 24 hours later on |
| AuthTokens.GenerateRefreshToken | auth/jwt.go:189-201 | an HS256 token with a valid signature whose subject is the user ID, with no user fields, issuer set, issued now, and expired exactly from 7 days later on |
| AuthTokens.Expired | auth/jwt.go:88-101 | golang-jwt v5's default exp check: a token without `exp` never expires; one with it is expired exactly when `now` is not strictly before it |
| AuthTokens.ValidateToken | auth/jwt.go:86-106 | succeeds iff the token decodes, uses an HMAC method, verifies and has not expired at `now`, returning its claims; otherwise the first failing check names the error: malformed, signing method (whatever else holds), signature, expiry; a signed token without `exp` always validates |
| AuthTokens.RefreshAccessToken | auth/jwt.go:204-224 | succeeds iff the token decodes, verifies with the secret, has not expired at `now` and its subject is a known user, returning a fresh access token for that user; otherwise malformed, invalid signature, expired or "user not found", in that order |
| AuthTokens.IssuedTokenValidates | auth/jwt.go:86-106 | an issued access token validates with the user's identity for 24 hours and is refused as expired from then on |
| AuthTokens.LoginTokenCarriesStoredUser | auth/jwt.go:109-122 | after a successful login the issued token validates, within its lifetime, with the stored user's ID and role |
| AuthTokens.MissingPasswordAcceptsEmpty | auth/jwt.go:117-119 | a user without a password entry logs in with "" and with nothing else |
| AuthTokens.DefaultLogins | auth/jwt.go:34-53 | the built-in logins: admin/adminpass is an admin, user123/password123 a user, a wrong password is refused, an unknown ID is not found |
| AuthTokens.MethodCheckedFirst | auth/jwt.go:88-94 | ValidateToken refuses a non-HMAC token for its method; RefreshAccessToken refuses it only as an invalid signature |
| AuthTokens.RefreshRoundTrip | auth/jwt.go:189-224 | within 7 days of its issue a refresh token refreshes to the subject's access token, or "user not found"; from then on it is refused as expired |
| AuthTokens.RefreshRoleFromTable | auth/jwt.go:213-220 | the refreshed role comes from the user table, never from the presented token |
| AuthTokens.AccessTokenDoesNotRefresh | auth/jwt.go:213-218 | an access token, which has no subject, gets "user not found" while fresh (unless "" is a user) and is refused as expired afterwards |
| AuthTokens.RefreshTokenValidates | auth/jwt.go:101-103 | a refresh token passes ValidateToken with empty user fields for 7 days, longer than an access token's 24 hours, and is refused as expired afterwards |
| AuthGate.Status | auth/jwt.go:148-181 | a preflight is answered 200, a refusal for the admin role 403, any other refusal (missing or invalid token) 401 |
| AuthGate.GetTokenFromRequest | auth/jwt.go:125-137 | a "Bearer " Authorization header yields its rest; otherwise the "token" query parameter |
| AuthGate.Request.SetHeader | auth/jwt.go:168-169 | sets one header and changes nothing else |
| AuthGate.Gate | auth/jwt.go:147-172 | a preflight iff the method is OPTIONS; this gate never refuses for the admin role |
| AuthGate.AdminGate | auth/jwt.go:177-185 | a preflight iff the method is OPTIONS; only the role "admin" is admitted |
| AuthGate.Stamped | auth/jwt.go:168-169 | the user ID and role headers hold the verified claims, and every other header is kept |
| AuthGate.JWTMiddleware | auth/jwt.go:140-174 | the verdict is the gate's decision on the request; an admitted request carries the verified user ID and role headers, and a refused one is unchanged |
| AuthGate.AdminOnlyMiddleware | auth/jwt.go:177-186 | the verdict is the admin gate's decision; the headers are as JWTMiddleware leaves them |
| AuthGate.PreflightIgnoresToken | auth/jwt.go:148-151 | OPTIONS is answered 200 without looking at any token |
| AuthGate.GateAdmitsValidTokens | auth/jwt.go:153-172 | admitted iff not OPTIONS, the token is non-empty and it validates, then with the token's claims; an empty token is refused as missing |
| AuthGate.ExpiredTokenUnauthorized | auth/jwt.go:160-165 | a signed token presented at or after its expiry is refused by both gates as expired, with 401 |
| AuthGate.AdminGateSpec | auth/jwt.go:177-186 | admitted iff the JWT gate admits with role "admin"; another admitted role gets 403; anything else is the JWT gate's answer |
| AuthGate.BearerRoundTrip | auth/jwt.go:127-131 | a bearer header carries the token through unchanged |
| AuthGate.BareBearerShadowsQuery | auth/jwt.go:127-137 | a bare "Bearer " header gives the empty token, so the query is never consulted and the request is refused as missing a token |
| AuthGate.OtherSchemeUsesQuery | auth/jwt.go:127-136 | a header in another scheme falls back to the query's token |
| AuthGate.IssuedTokenAdmitted | auth/jwt.go:161-169 | a token issued for a user is admitted within 24 hours and stamps the user's ID and role; later it is refused with 401 |
| AuthGate.RefreshTokenPassesGate | auth/jwt.go:161-169 | within its 7 days a refresh token is admitted with an empty ID and role, and the admin gate refuses it with 403 |

## Left out

- Object store I/O: `ListObjects` and its channel are the input sequence of records. Uploads, downloads, deletes, metadata, the client setup and `ListFilesWithFolders`'s recursive listing are not modelled. Only `buildFolderStructure`, which works on its result, is.
- `formatSizeBytes` is modelled in its integer part: the divisor and the unit letter. The `%.1f` floating-point rendering is left out.
- StorageSize.FormatSizeBytes: returns the chosen label, not the formatted text.
- Time is an integer instant: `time.Time.After` is a strict comparison, and `time.Now()` is a parameter `now`. Token times are whole seconds, so the rounding of NumericDate values to seconds is not modelled.
- Go maps of pointers to folder records are modelled as maps of values. Each record is stored under one key and never shared, so nothing depends on aliasing.
- `buildFolderStructure`'s inner cursor walk over nested `map[string]interface{}` values is modelled as a recursive insertion into a value tree. The in-place update through the cursor is not.
- Go's `int` counters (`totalFiles`, `itemCount`) are unbounded integers. `totalSize` is int64 and wraps, as in Go.
- Nil slices and empty slices are not distinguished.
- The JWT library: token encoding and HMAC computation are abstract. A decoded token carries whether its signature verifies.
- Of the library's time checks only `exp` is modelled. The `nbf` check is left out because this server's tokens never set it. The `iat` check is off by default and is not modelled.
- AuthTokens.ValidateToken: does not model the library's error texts.
- AuthTokens.GenerateToken: does not model the `(string, error)` failure of `SignedString` (auth/jwt.go:77-80), nor does `GenerateRefreshToken` (auth/jwt.go:189-201) or the error `RefreshAccessToken` passes on from `GenerateToken` (auth/jwt.go:204-224). HS256 signing with a `[]byte` key does not fail, so the path is not reached.
- AuthGate.JWTMiddleware: does not model the response texts ("Missing authorization token", "Invalid token: " with the library's error, "Admin access required"; they are named on `Reason`), the trailing newline `http.Error` adds, or the CORS response headers.
- The `errors.New("invalid token")` and "invalid refresh token" outcomes for a decoded but not valid token are merged into the library's own failure cases. With the library's checks these branches are not reached.
- `RefreshAccessToken`'s key callback hands the secret to any signing method. A non-HMAC method then fails to verify and is modelled as SignatureInvalid.
- Headers and query parameters are single-valued maps. Header-name canonicalisation is not modelled.
- The next handler of a middleware is not modelled. An admitted verdict stands for "call next with the stamped request".
- network/network.go and main.go, the HTTP handlers and server setup, are not part of this model.
