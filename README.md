# SecureBox core, modelled in Dafny

SecureBox is a browser application that keeps a user's files in cloud object
storage and their metadata in a Postgres catalog. This project models its core
and proves properties of the model:

- **Encryption** (`encryption.dfy`) covers `src/lib/encryption.ts`.
  - Key material is chosen from the caller's key, the configured key and a built-in fallback.
  - The secret is padded with `'0'` or truncated to 32 characters, then encoded as UTF-8.
  - The sealed blob is the 12-byte IV followed by the ciphertext, and decryption splits it the same way.
  - Random keys are rendered as 64 lower-case hex digits.
- **Storage providers** (`storage_providers.dfy`) cover `src/lib/storageProviders.ts`.
  - Two backends: S3, addressed by a virtual-hosted URL, and Supabase, addressed by a fixed bucket.
  - The bucket contents are a map from object key to blob.
  - `StorageManager` encrypts before it puts and decrypts after it gets.
  - The factory picks the backend from the configuration.
- **Catalog API** (`api.dfy`) covers `src/db/api.ts`.
  - Tables are maps keyed by row id.
  - Covered operations: the folder ancestry walk, the three file listings (with PostgreSQL's descending order, NULLs first), soft delete and restore, row creation, the `maybeSingle` look-ups, and the plain (unencrypted) `storageApi` upload and download.
- **Form pages** (`credentials.dfy`, `register_page.dfy`, `reset_password_page.dfy`, `login_page.dfy`, `forgot_password_page.dfy`, `settings_page.dfy`):
  - each page's ordered chain of validation checks, and what its submit handler sends and shows;
  - the password-strength meter;
  - the remember-me entries kept in `localStorage`.
- **Upload button** (`upload_button.dfy`): the batch loop, with its 50 MB gate, per-file failure handling and counters.
- **Shared view** (`shared_view_page.dfy`): the share-link access decision and the download gate.

How the outside world is represented:

- **Replies from services.** Every network service (the storage SDK, S3, the catalog, the auth service) is represented by the reply it gives. A `Reply` is delivered, refused with a status text, or raised as an error; an auth call is a `Call`. These replies are parameters, so every error path is modelled.
- **Clock, randomness and AES-GCM.**
  - Clock readings and random values (IVs, path tokens, row ids) are also parameters.
  - AES-GCM is a pair of functions (`Cipher`). The round trip is proved under the hypothesis `RoundTrips`.

Two observations about the source are stated as lemmas rather than fixed:

- When neither a caller key nor a configured key is set, `encryption.ts` falls back to the fixed secret `default-secure-key-change-this` (`Encryption.KeyMaterial`).
- Secrets shorter than 32 characters collide with their own zero-padded extensions (`Encryption.ShortSecretCollidesWithZeroPadding`).

## Model

| member | source | states |
|---|---|---|
| Text.TrimStart | src/pages/SettingsPage.tsx:53 | the leading white space is dropped: what remains is the end of the text, everything dropped is white space, and what remains does not start with it |
| Text.TrimEnd | src/pages/SettingsPage.tsx:53 | the trailing white space is dropped: what remains is the start of the text, everything dropped is white space, and what remains does not end with it |
| Text.TrimEmptyIffBlank | src/pages/RegisterPage.tsx:27 | `trim()` yields the empty string exactly when every character is JavaScript white space |
| Text.TrimmedHasNoOuterSpace | src/pages/SettingsPage.tsx:49-53 | a non-empty trimmed name neither starts nor ends with white space, and it occurs inside the original |
| Text.JsLength | src/pages/RegisterPage.tsx:46 | `.length` counts UTF-16 units: at least the number of code points and at most twice it, equal exactly when no character lies outside the BMP |
| Text.JsLengthAppend | src/pages/RegisterPage.tsx:105-106 | the UTF-16 length of a concatenation is the sum of the lengths |
| Text.ToLowerAscii | src/lib/storageProviders.ts:203 | lower-casing keeps the length and maps exactly the ASCII capitals to their small letters |
| Text.Decimal | src/lib/storageProviders.ts:167 | a millisecond stamp renders as a non-empty run of decimal digits |
| Text.DecimalRoundTrip | src/lib/storageProviders.ts:167 | reading the decimal rendering back gives the same number |
| Encryption.KeyMaterial | src/lib/encryption.ts:7 | the secret is the caller's key if truthy, else the configured key if truthy, else the built-in fallback; never empty |
| Encryption.NormaliseSecret | src/lib/encryption.ts:10 | the normalised secret has exactly 32 characters: the secret's own first characters, then `'0'` padding |
| Encryption.SameNormalisedIff | src/lib/encryption.ts:10 | two secrets give the same key text exactly when they agree position by position after padding |
| Encryption.ShortSecretCollidesWithZeroPadding | src/lib/encryption.ts:10 | a secret shorter than 32 characters and the same secret with a `'0'` appended derive the same key text |
| Encryption.Utf8Length | src/lib/encryption.ts:9-10 | the encoded key is at least as long as the text, and exactly as long (byte = code) exactly when the text is ASCII |
| Encryption.ImportAesKey | src/lib/encryption.ts:12-18 | raw AES key import succeeds exactly for 16, 24 or 32 bytes and keeps the bytes |
| Encryption.DeriveKeyOkIffAscii | src/lib/encryption.ts:6-19 | `getEncryptionKey` (`DeriveKey`) succeeds exactly when the padded secret is ASCII, and the key bytes are then the secret's character codes |
| Encryption.DeriveKeyIgnoresTail | src/lib/encryption.ts:10 | two caller keys that share their first 32 characters derive the same key |
| Encryption.Frame | src/lib/encryption.ts:40-42 | the envelope is the IV followed by the ciphertext |
| Encryption.SplitEnvelope | src/lib/encryption.ts:60-61 | decryption splits a blob into its first 12 bytes (fewer if shorter) and the rest, and the two parts concatenate back to the blob |
| Encryption.SplitFrame | src/lib/encryption.ts:40-42 | splitting a framed 12-byte-IV envelope gives back the IV and the ciphertext |
| Encryption.Encrypted | src/lib/encryption.ts:24-49 | encryption succeeds exactly when the key derives and the cipher seals; the result is typed `application/octet-stream` and is IV then ciphertext; every failure is `Failed to encrypt file` |
| Encryption.EncryptFile | src/lib/encryption.ts:24-49 | the imperative envelope construction equals `Encrypted` |
| Encryption.DecryptFile | src/lib/encryption.ts:54-75 | decryption succeeds exactly when the key derives and the cipher opens the split envelope; the result carries the caller's type; every failure is `Failed to decrypt file` |
| Encryption.DecryptAfterEncrypt | src/lib/encryption.ts:24-75 | with a round-tripping cipher, decrypting what `encryptFile` produced gives back the plaintext with the requested type |
| Encryption.ByteHex | src/lib/encryption.ts:83 | a byte renders as its two hex digits, high nibble first, zero-padded |
| Encryption.HexShape | src/lib/encryption.ts:83 | the rendering has two characters per byte, all lower-case hex digits |
| Encryption.UnhexHex | src/lib/encryption.ts:83 | parsing the hex rendering back gives the original bytes |
| Encryption.GenerateEncryptionKey | src/lib/encryption.ts:80-84 | the generated key is the hex rendering of the 32 random bytes |
| Encryption.GeneratedKeyShape | src/lib/encryption.ts:80-84 | a generated key is 64 lower-case hex digits from which the random bytes can be recovered |
| StorageProviders.Extension | src/lib/storageProviders.ts:166 | the extension is the text after the last `.`, or the whole name when there is none; it contains no `.` and ends the name |
| StorageProviders.PathParts | src/lib/storageProviders.ts:166-168 | the encrypted object path (`EncryptedObjectPath`) is `userId/millis_token.ext.enc` |
| StorageProviders.EncryptedPathShape | src/lib/storageProviders.ts:166-168 | the path starts with the owner's folder, ends in `.enc`, and keeps the original extension just before it |
| StorageProviders.SamePathSameStamp | src/lib/storageProviders.ts:167-168 | equal paths for one user mean equal timestamps and tokens |
| StorageProviders.DistinctUploadsDistinctPaths | src/lib/storageProviders.ts:167-168 | uploads with a different timestamp or token never share a path |
| StorageProviders.S3UrlDeterminesPath | src/lib/storageProviders.ts:39 | the S3 object URL (`S3Url`) ends with the path, and different paths give different URLs |
| StorageProviders.ObjectKeyDeterminesPath | src/lib/storageProviders.ts:39-97 | upload, download, delete and the public URL address an object by one key per backend (`ObjectKey`: the S3 URL, or the bare path for Supabase), and different paths never share a key |
| StorageProviders.ProviderName | src/lib/storageProviders.ts:20 | the provider name is `AWS S3` for S3 and `Supabase` for Supabase |
| StorageProviders.ProviderUpload | src/lib/storageProviders.ts:37-58 | an upload returns its path only when delivered, and then stores the blob under the backend's key; a failure leaves the bucket unchanged |
| StorageProviders.ProviderDownload | src/lib/storageProviders.ts:60-77 | a download succeeds exactly when delivered and the key is present, and then returns the stored blob |
| StorageProviders.ProviderDelete | src/lib/storageProviders.ts:79-94 | a delivered delete removes the key; a failure leaves the bucket unchanged |
| StorageProviders.ProviderPublicUrl | src/lib/storageProviders.ts:143-149 | S3 returns the object URL; Supabase returns the SDK's URL, or `null` when it is missing |
| StorageProviders.ProviderRoundTrip | src/lib/storageProviders.ts:37-77 | downloading a path right after uploading to it gives back the stored blob |
| StorageProviders.Provider.UploadFile | src/lib/storageProviders.ts:114-124 | the provider's upload updates its bucket as `ProviderUpload` says |
| StorageProviders.Provider.DownloadFile | src/lib/storageProviders.ts:126-133 | the provider's download answers as `ProviderDownload` says |
| StorageProviders.Provider.DeleteFile | src/lib/storageProviders.ts:135-141 | the provider's delete updates its bucket as `ProviderDelete` says |
| StorageProviders.ManagerUpload | src/lib/storageProviders.ts:162-172 | the manager hands the provider only the encrypted blob under the `.enc` path and returns exactly that path; an encryption failure stores nothing |
| StorageProviders.ManagerDownload | src/lib/storageProviders.ts:174-180 | the manager's download is the provider's download followed by decryption with the caller's type; provider errors pass through |
| StorageProviders.UploadThenDownload | src/lib/storageProviders.ts:162-180 | with a round-tripping cipher, downloading the path an upload returned gives back the uploaded bytes |
| StorageProviders.StorageManager.UploadFile | src/lib/storageProviders.ts:162-172 | the manager's upload changes the bound provider's bucket as `ManagerUpload` says |
| StorageProviders.StorageManager.DownloadFile | src/lib/storageProviders.ts:174-180 | the manager's download answers as `ManagerDownload` says |
| StorageProviders.StorageManager.DeleteFile | src/lib/storageProviders.ts:182-184 | delete is delegated with its path and result unchanged |
| StorageProviders.StorageManager.GetPublicUrl | src/lib/storageProviders.ts:186-188 | the public URL is the bound provider's own |
| StorageProviders.StorageManager.GetProviderName | src/lib/storageProviders.ts:190-192 | the name is the bound provider's own |
| StorageProviders.SelectBackend | src/lib/storageProviders.ts:198-215 | the lower-cased kind (default `supabase`) selects S3 exactly for `s3`/`aws`; every other kind needs a client and fails with the client-required error otherwise |
| StorageProviders.DefaultNeedsClient | src/lib/storageProviders.ts:199-212 | with no kind configured, the factory builds Supabase when given a client and throws without one |
| StorageProviders.CreateStorageManager | src/lib/storageProviders.ts:198-218 | the factory returns a fresh manager bound to a fresh provider of the selected backend, or the error |
| Api.AncestryUnique | src/db/api.ts:119-133 | a folder has at most one ancestry chain, so the path the walk returns is determined by the folder table |
| Api.Insert | src/db/api.ts:141 | inserting a row into a listing adds exactly one element |
| Api.InsertKeepsOrder | src/db/api.ts:141 | inserting into a descending listing keeps it descending and adds exactly that row |
| Api.Listing | src/db/api.ts:137-168 | a listing holds each row its `WHERE` clause selects exactly once and no other row, sorted by its `ORDER BY` column descending with `NULL` keys first |
| Api.SoftDeleted | src/db/api.ts:192-205 | soft delete sets the deleted flag and the deletion time and changes no other column |
| Api.Restored | src/db/api.ts:207-220 | restore clears the deleted flag and the deletion time and changes no other column |
| Api.DeleteRestoreRoundTrip | src/db/api.ts:137-241 | restoring a soft-deleted live row gives back the row; while deleted it leaves its folder's default listing and every search, but still shows when deleted rows are included |
| Api.NewShareLink | src/db/api.ts:245-269 | a new share link stores the given file, folder, owner, token, download flag and expiry, with no password and zero counters |
| Api.NewFile | src/db/api.ts:181-190 | a new file row copies every draft column and starts live, with no deletion time, stamped now |
| Api.Database.GetFolderPath | src/db/api.ts:119-133 | the walk returns nothing for a falsy or unknown id, and otherwise the chain of table rows from the top folder down to the given one, each the parent of the next |
| Api.Database.GetFiles | src/db/api.ts:137-157 | the rows of the given folder (`null` for the root), the deleted ones only when asked, each once, newest first; a failed query throws |
| Api.Database.GetDeletedFiles | src/db/api.ts:159-168 | exactly the deleted rows, each once, latest deletion first |
| Api.Database.SearchFiles | src/db/api.ts:231-241 | exactly the live rows whose name contains the query ignoring ASCII case, each once, newest first |
| Api.Database.CreateFile | src/db/api.ts:181-190 | a delivered insert adds exactly the new row under its id and returns it; a failed one throws and changes nothing |
| Api.Database.SoftDeleteFile | src/db/api.ts:192-205 | a delivered update soft-deletes the row and returns it, or returns `null` for an unknown id |
| Api.Database.RestoreFile | src/db/api.ts:207-220 | a delivered update restores the row and returns it, or returns `null` for an unknown id |
| Api.Database.CreateShareLink | src/db/api.ts:245-269 | a delivered insert adds the new link under its id with the defaults `can_download = true` and no expiry; a failed one changes nothing |
| Api.LookupFile | src/db/api.ts:170-179 | `getFile` returns the row with that id, or `null` when there is none |
| Api.LookupShareLink | src/db/api.ts:271-280 | `getShareLink` returns `null` when no link carries the token and the one link that does otherwise; two or more such links make `maybeSingle` throw |
| Api.CreatedLinkIsFound | src/db/api.ts:245-280 | a link created with an unused token is the one `getShareLink` returns for it |
| Api.LegacyPathShape | src/db/api.ts:309-311 | the plain upload path (`LegacyObjectPath`) is the encrypted one without `.enc`, starts with the owner's folder, and keeps the file's extension |
| Api.UploadFile | src/db/api.ts:304-322 | the plaintext file goes to the application bucket under `userId/millis_token.ext`, and the path is returned only after the upload succeeded |
| Api.DownloadFile | src/db/api.ts:324-331 | the download returns the stored object, or throws |
| Credentials.PatternAcceptsOnlyTrimmed | src/pages/RegisterPage.tsx:36-37 | a name the pattern `^[a-zA-Z0-9_]+$` accepts is non-empty, already trimmed, and ASCII (its length is its character count) |
| Credentials.CountHolding | src/pages/RegisterPage.tsx:104-109 | the strength is at most the number of criteria |
| Credentials.StrengthLabel | src/pages/RegisterPage.tsx:111-113 | the label is `Weak` exactly up to 2, `Medium` exactly at 3, `Strong` exactly from 4 |
| Credentials.PasswordStrength | src/pages/RegisterPage.tsx:102-114 | an empty password scores nothing; otherwise the score counts the criteria that hold (length 6, length 8, capital, digit, symbol), at most 5, with the matching label and colour |
| Credentials.StrengthNeverDropsWhileTyping | src/pages/ResetPasswordPage.tsx:94-106 | typing more characters never lowers the strength |
| Credentials.StrongNeedsMixedCharacters | src/pages/ResetPasswordPage.tsx:96-105 | a `Strong` password has at least two of capital, digit and symbol; an all-lower-case password is always `Weak` |
| RegisterPage.FirstProblem | src/pages/RegisterPage.tsx:24-80 | sign-up is attempted exactly when the name matches the pattern and has 3 or more characters, the password has 6 or more, the confirmation matches and the terms are accepted; otherwise exactly one toast, that of the first failed check in source order: blank fields, characters, name length, password length, confirmation, terms |
| RegisterPage.LeadingSpaceRefused | src/pages/RegisterPage.tsx:27-43 | a valid name typed after white space is refused for its characters, not trimmed |
| RegisterPage.TrailingSpaceRefused | src/pages/RegisterPage.tsx:27-43 | a valid name typed before white space is refused for its characters |
| RegisterPage.RegisterForm.HandleSubmit | src/pages/RegisterPage.tsx:24-99 | the credentials are sent only when every check passes; success navigates to `/login`; failure shows the error; loading ends false; the form is not changed |
| ResetPasswordPage.FirstProblem | src/pages/ResetPasswordPage.tsx:37-65 | the new password is sent exactly when it has 6 or more characters and matches; blank fields, then length, then mismatch |
| ResetPasswordPage.ShortBeforeMismatch | src/pages/ResetPasswordPage.tsx:49-64 | a short password is reported as short even when the confirmation differs |
| ResetPasswordPage.ResetPasswordForm.CheckSession | src/pages/ResetPasswordPage.tsx:21-35 | a session unlocks the form; without one the page warns and schedules `/forgot-password` |
| ResetPasswordPage.ResetPasswordForm.HandleSubmit | src/pages/ResetPasswordPage.tsx:37-91 | only a valid new password is sent; success navigates to `/login`; failure shows the error; loading ends false |
| ResetPasswordPage.FormShown | src/pages/ResetPasswordPage.tsx:21-110 | from mounting on, through any run of session checks, typing and submits, the form replaces the "Verifying reset link" screen exactly when some session check found a session |
| LoginPage.LocalStorage.SetItem | src/pages/LoginPage.tsx:50-51 | after `setItem`, `getItem` of that key gives the value just written and every other key reads as before |
| LoginPage.LocalStorage.RemoveItem | src/pages/LoginPage.tsx:53-54 | after `removeItem`, `getItem` of that key gives `null` and every other key reads as before |
| LoginPage.Persisted | src/pages/LoginPage.tsx:49-55 | after a sign-in, `rememberMe` and `lastUsername` are set when asked and both removed otherwise; no other key changes |
| LoginPage.Recalled | src/pages/LoginPage.tsx:74-81 | a name is prefilled exactly when `rememberMe` is `true` and `lastUsername` is non-empty |
| LoginPage.SaveThenLoad | src/pages/LoginPage.tsx:49-81 | remembering and then loading gives back the signed-in name; opting out leaves nothing to load |
| LoginPage.FirstProblem | src/pages/LoginPage.tsx:22-42 | sign-in is attempted exactly when the name matches the pattern and the password is non-empty; blank fields are reported before characters |
| LoginPage.LoginForm.LoadRemembered | src/pages/LoginPage.tsx:73-81 | on mount the remembered name is filled in and remember-me ticked, or the form is left as it is |
| LoginPage.LoginForm.HandleSubmit | src/pages/LoginPage.tsx:22-71 | the credentials are sent only when both checks pass; the store is written only after a successful sign-in, which navigates to `/` |
| LoginPage.RememberedSignInIsPrefilled | src/pages/LoginPage.tsx:44-81 | a remembered successful sign-in is prefilled on the next visit |
| ForgotPasswordPage.PatternMeansEmail | src/pages/ForgotPasswordPage.tsx:30-31 | the pattern `^[^\s@]+@[^\s@]+\.[^\s@]+$` accepts exactly the texts without white space that have one `@` with text before it and a `.` inside the domain |
| ForgotPasswordPage.FirstProblemMeans | src/pages/ForgotPasswordPage.tsx:17-38 | the reset e-mail is requested exactly for an address that looks like an e-mail address; a blank field is reported as empty, anything else as invalid |
| ForgotPasswordPage.SurroundingSpaceRefused | src/pages/ForgotPasswordPage.tsx:20-31 | an address with white space around it is refused, not trimmed |
| ForgotPasswordPage.ForgotPasswordForm.HandleSubmit | src/pages/ForgotPasswordPage.tsx:17-62 | the request goes out with the redirect `<origin>/reset-password` only for a valid address; success switches to the confirmation view |
| ForgotPasswordPage.ForgotPasswordForm.TryAgain | src/pages/ForgotPasswordPage.tsx:195 | "Try again" returns to the form and keeps the address |
| SettingsPage.FirstProblem | src/pages/SettingsPage.tsx:70-96 | the password change goes ahead exactly when the current password is non-empty and the new one matches its confirmation and has 6 or more characters; blank fields, then mismatch, then length |
| SettingsPage.MismatchBeforeLength | src/pages/SettingsPage.tsx:80-96 | a short mismatched pair is reported as a mismatch |
| SettingsPage.SettingsForm.constructor | src/pages/SettingsPage.tsx:33-37 | the form opens with the profile's username, or empty, and blank password fields |
| SettingsPage.SettingsForm.HandleUpdateUsername | src/pages/SettingsPage.tsx:48-68 | nothing happens without a profile or with a blank name; otherwise the trimmed name is sent for the profile's id and loading ends false |
| SettingsPage.SettingsForm.HandleChangePassword | src/pages/SettingsPage.tsx:70-122 | only the new password is sent; the three fields are cleared after success and kept after failure; loading ends false |
| Upload.Prepared | src/components/files/UploadButton.tsx:48-63 | a file up to 52428800 bytes passes unchanged; a larger image is replaced by its compressed copy; any other larger file fails with `File size exceeds 50MB limit` |
| Upload.Draft | src/components/files/UploadButton.tsx:65-77 | the catalog row asks for the sanitised name, the stored file's size and type, the returned path, the current folder and owner, not a favourite and never opened |
| Upload.Step | src/components/files/UploadButton.tsx:47-83 | one file counts once; it adds exactly its catalog row when it gets through, and nothing to the catalog otherwise; a stored object stays even when the insert fails |
| Upload.Count | src/components/files/UploadButton.tsx:79 | the number of files that get through is at most the number selected |
| Upload.CountPositive | src/components/files/UploadButton.tsx:90-96 | the completion callback fires exactly when some file got through |
| Upload.RunCounts | src/components/files/UploadButton.tsx:39-84 | after the loop the success count is the number of files that got through, and the two counters sum to the number of files |
| Upload.RunRowCount | src/components/files/UploadButton.tsx:65-79 | the catalog grows by exactly one row per success |
| Upload.RunRowsStored | src/components/files/UploadButton.tsx:66-77 | every row the batch adds names an object that is in the bucket |
| Upload.RunRecords | src/components/files/UploadButton.tsx:65-77 | each file that gets through ends up with its own row, built from the file actually stored, and its object in the bucket |
| Upload.OversizedNonImageRefused | src/components/files/UploadButton.tsx:49-62 | a file over the limit that is not an image reaches neither the bucket nor the catalog and counts one error |
| Upload.Summary | src/components/files/UploadButton.tsx:90-104 | the completion toast appears exactly when something succeeded, the error toast exactly when something failed, each with its count |
| Upload.TryUpload | src/components/files/UploadButton.tsx:47-83 | one turn of the `try` block changes the bucket and the catalog as `Step` says and succeeds exactly when `Succeeds` holds |
| Upload.ProgressPercent | src/components/files/UploadButton.tsx:45 | the progress bar after a file of the batch lies above 0 and at most 100, and reaches 100 exactly at the last file |
| Upload.UploadButton.UploadEach | src/components/files/UploadButton.tsx:42-84 | the loop leaves the bucket, the catalog and the counters as the in-order fold of `Step` |
| Upload.UploadButton.HandleFileChange | src/components/files/UploadButton.tsx:34-109 | nothing happens without files or a profile; otherwise the batch runs, the dialog closes with progress 0 and no current file, and the callback and toasts follow the counts |
| SharedViewPage.Decide | src/pages/SharedViewPage.tsx:22-51 | unknown and expired links are refused with their own messages and show nothing; a shown link is the token's live link; a shown file is live, in the table, and the one the link points at; a folder-only link shows the link with no file and no error; the file is shown exactly when a live link's file query returns a row that is not deleted; "File not found or has been deleted" exactly when that row is missing or deleted; "Failed to load shared content" exactly when the link query, or a live link's file query, throws |
| SharedViewPage.Applied | src/pages/SharedViewPage.tsx:23-51 | a load writes only the fields it sets and stops the spinner |
| SharedViewPage.Reloaded | src/pages/SharedViewPage.tsx:13-16 | a load from a clean slate, which is what the first load of the page shows |
| SharedViewPage.ErrorPersists | src/pages/SharedViewPage.tsx:28-48 | once an error is shown, no later load of the same page clears it |
| SharedViewPage.RefusedLinkShowsNothing | src/pages/SharedViewPage.tsx:27-35 | a token with no live link shows an error, no link and no file, and offers no download |
| SharedViewPage.CreatedLinkShowsFile | src/pages/SharedViewPage.tsx:25-42 | a freshly created non-expiring link to a live file shows that file, and downloads follow the link's flag |
| SharedViewPage.SharedView.LoadSharedContent | src/pages/SharedViewPage.tsx:19-55 | without a token nothing changes (the spinner stays); otherwise the page becomes `Applied` of its old state and the access decision |
| SharedViewPage.SharedView.HandleDownload | src/pages/SharedViewPage.tsx:57-74 | a download is fetched only when a file is shown and the link allows downloads; the toast reports the outcome |
| SharedViewPage.StaleFileOutlivesItsLink | src/pages/SharedViewPage.tsx:19-55 | a file shown through a link that forbids downloads stays shown, downloadable, after the page moves to a folder-only link that allows them |
| SharedViewPage.ReloadedDownloadMatchesLink | src/pages/SharedViewPage.tsx:37-58 | after a clean load a download is offered only for the file of the token's own unexpired link, and only when that link allows it |

## Findings

| source | as written | input that shows it | evidently intended | confidence | as-written member | corrected member |
|---|---|---|---|---|---|---|
| src/pages/SharedViewPage.tsx:19-55 | `loadSharedContent` never resets `shareLink`, `file` or `error` before loading a new token, so the page keeps state from the previous token | same page instance: token `tokA` (a link to file `f`, downloads off), then token `tokB` (a folder-only link, downloads on); `f` stays shown with a working download button | each load starts from the initial state | medium, not executed | SharedViewPage.StaleFileOutlivesItsLink | SharedViewPage.ReloadedDownloadMatchesLink |

The as-written page is `SharedViewPage.Applied`, which `SharedView.LoadSharedContent` is proved to follow. The corrected page is `SharedViewPage.Reloaded`.

## Left out

- AES-GCM itself (`crypto.subtle.encrypt`/`decrypt`) and the key import's internals are a `Cipher` parameter. Its round trip is the hypothesis `RoundTrips`, not a proof about AES.
- Random values, the clock and `crypto.randomUUID` are parameters. This covers the IV, the `Math.random().toString(36).substring(7)` token, `Date.now()`, the row ids and `new Date()`.
- Encryption.NormaliseSecret: padding and truncation are modelled on code points, while JavaScript pads and cuts UTF-16 units. The two differ only for secrets with characters outside the BMP, and those make key import fail in both.
- The network is replaced by the `Reply`/`Call` parameters. This covers the SDKs, `fetch`, the headers and `cacheControl`, and the auth context's `signUp`, `signIn`, `updateUser`, `resetPasswordForEmail` and `getSession`.
- StorageProviders.ProviderUpload: Supabase refuses an upload to an existing path (`upsert: false`). The reply parameter decides the outcome, and a delivered reply overwrites.
- The catalog is three maps.
  - Schema defaults, triggers and row-level security are not modelled; a new row's defaults are stated in `NewFile`/`NewShareLink`.
  - `id` and `created_at` are given by the caller.
  - Ties between equal `created_at` are ordered by insertion, not as Postgres would order them.
- Api.Database.SearchFiles: `ilike` is modelled as a plain substring test with ASCII-only case folding. `%` and `_` in the query are not treated as wildcards, and non-ASCII case is not folded.
- Api.Database.GetFolderPath: it requires an acyclic folder table, which the schema does not enforce. Also, a `getFolder` that throws mid-walk is not modelled; the walk stops at a missing folder.
- `fileUtils` is not part of this model. For each file, the answers of `isImageFile`, `sanitizeFileName` and `compressImage` are the `image`, `safeName` and `compressed` fields of its attempt.
- Upload.UploadButton.HandleFileChange: the row ids handed out during a batch must be distinct and unused.
  - Progress is an exact rational, not a float.
  - The compression toasts (with their MB figures) and the file input reset are not modelled.
- Profile storage (`profileApi.updateProfile`, `refreshProfile`) is one `Call` outcome. The settings page's theme, preferences, storage usage and account deletion are not modelled.
- Rendering, routing timers (`setTimeout`), concurrent effects and the other pages and components are not modelled. The `fileType` argument of `storageApi.downloadFile` is ignored by the source and absent here.
