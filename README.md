# Extract: a Dafny model of the archive-extraction request

This project models the core of the Nextcloud "extract" app: the `extract`
request of `ExtractionController` and the three backend procedures of
`ExtractionService` it dispatches to.

A request names an archive by directory and file name. The controller does the following, in order:

1. It refuses the request when server-side encryption is on.
2. It resolves the archive to a path on the backend's local filesystem.
3. It picks the folder to extract into. Normally this is a folder beside the archive, named after it without its last extension. For an archive on external storage it is a staging folder under `<user>/<appName>`; a stale staging folder left by an earlier run is deleted first.
4. It dispatches on the declared type:
   - `zip` goes to ZipArchive;
   - `rar` goes to the rar extension, or to the `unrar` tool when the extension is missing;
   - any other type goes to `7za`. A `.tar.*` archive is then unpacked in two passes, and the inner `.tar` is unlinked afterwards.
5. It unlinks every blacklisted file below the extraction folder.
6. It finishes the job. With a staging folder, it moves the folder into the user's tree. Otherwise it rescans the new folder, as the owner of the looked-up file. When that owner is not the caller, the scan path is derived from the local path with a `preg_split`.

Modules:
- `Wrappers`: Option and Result.
- `Php`: the PHP built-ins the core relies on:
  - `basename`;
  - `dirname` (zend_dirname);
  - `pathinfo` with PATHINFO_FILENAME and PATHINFO_EXTENSION;
  - PHP truthiness of a request string.
- `Shell`: `escapeshellarg` on a POSIX host, plus a small POSIX word splitter (blanks, single quotes, backslash). The splitter proves which argument vector each command line hands to `7za` and `unrar`, for every path that `escapeshellarg` copies unchanged (under a UTF-8 locale; see "## Left out").
- `FileStore`: the backend-local filesystem as a map from path to file or directory, with the log of calls into code the core does not see (`exec`, ZipArchive, RarEntry, node move, scanner). Its class `Store` holds the mutable state the controller's methods change.
- `ExtractionService`: the `{code, desc}` responses and the calls each backend procedure makes. Extension availability, open results, entry lists and output line counts are inputs.
- `ExtractionController`: naming, staging, dispatch, the blacklist pass, and the final move or rescan. The class `ExtractionController` holds the user, the app name, the collaborators (`Environment`) and the store.

Two quirks of the source are modelled as written:
- **The zip open check.** It reads `!$zip->open($file) === TRUE`. An integer error code from `open` is therefore not caught, and `extractZip` answers code 1 (`ZipErrorCodeReportsSuccess`). The request then faults in postExtract unless the extraction folder already exists, which it never does with staging, because the staging folder has just been evicted.
- **The first 7za pass for `.tar.*` archives.** It passes the bare clean name as its destination, because the folder argument is dropped by the call (`NestedTarNaming`).

The rar backend is modelled both as written and as intended (see "## Findings"). As written, `extractRar` throws on the rar-extension branch. The controller's `rar` branch uses the intended version, which extracts every listed entry.

## Model

| member | source | states |
|---|---|---|
| Php.Basename | lib/Controller/ExtractionController.php:81 | the base name of a path never contains a slash |
| Php.PathinfoFilename | lib/Controller/ExtractionController.php:148 | the file name without extension has no slash and is a prefix of the base name |
| Php.PathinfoExtension | lib/Controller/ExtractionController.php:159 | the extension has no slash and no dot, and is non-empty only when the base name has a dot |
| Php.Dirname | lib/Controller/ExtractionController.php:146 | dirname is empty exactly for the empty path; otherwise it is "/" or ends in a non-slash |
| Php.PathinfoRebuildsBasename | lib/Controller/ExtractionController.php:148 | when the base name has a dot, file name, dot and extension rebuild it; without a dot the file name is the whole base name and the extension is empty |
| Php.BasenameOfPlainName | lib/Controller/ExtractionController.php:148 | a name without a slash is its own base name |
| Php.TarExtension | lib/Controller/ExtractionController.php:187-188 | for a plain name, the extension is "tar" exactly when the name ends in ".tar", and the file name then drops those four characters |
| Php.DirnameOfChild | lib/Controller/ExtractionController.php:146-149 | for a directory-shaped d and a plain non-empty n, dirname of d/n is d and basename is n |
| Php.Truthy | lib/Controller/ExtractionController.php:152 | `$external` selects staging unless it is "" or "0": every string of two or more characters is true, and a one-character string is true unless it is "0" |
| Php.SplitAtLastDot | lib/Controller/ExtractionController.php:148 | a plain name stem.ext with a dot-free ext splits into file name stem and extension ext |
| Shell.EscapeShellArg | lib/Service/ExtractionService.php:102 | the result is wrapped in single quotes and is at least two characters longer than the argument; a string without a single quote is just wrapped; RunEscaped states what a shell reads back |
| Shell.RunEscaped | lib/Service/ExtractionService.php:102 | reading escapeshellarg(s) outside quotes appends exactly s to the current word, for every string s |
| Shell.RunQuoteBody | lib/Service/ExtractionService.php:102 | inside single quotes the escaped body of s appends exactly s and stays inside the quotes |
| ExtractionService.SevenZipCommand | lib/Service/ExtractionService.php:102 | the 7za command line; its argument vector is stated by SevenZipArguments and its injectivity by SevenZipCommandInjective |
| ExtractionService.UnrarCommand | lib/Service/ExtractionService.php:77 | the unrar command line; its argument vector is stated by UnrarArguments |
| ExtractionService.SevenZipArguments | lib/Service/ExtractionService.php:102 | the 7za command splits into exactly 7za, -y, x, the archive path and -o glued to the destination |
| ExtractionService.UnrarArguments | lib/Service/ExtractionService.php:77 | the unrar command splits into exactly unrar, x, the archive path, -R, the destination with a slash appended, and -o+ |
| ExtractionService.SevenZipCommandInjective | lib/Service/ExtractionService.php:102 | two different archive/destination pairs never give the same 7za command |
| ExtractionService.ExtractZip | lib/Service/ExtractionService.php:48-68 | without the zip extension: code 0 with the extension message and no call; with it: code 0 with "cannot open" exactly when open's result is falsy, otherwise one extractTo call into the destination and code 1 |
| ExtractionService.ZipErrorCodeReportsSuccess | lib/Service/ExtractionService.php:59-67 | an integer error code from open is reported as success |
| ExtractionService.RarCalls | lib/Service/ExtractionService.php:74-94 | without the rar extension one unrar run; with it one entry extraction per listed entry, in list order, each into the destination |
| ExtractionService.RarResponse | lib/Service/ExtractionService.php:74-94 | code 0 with the unrar message exactly when the extension is missing and unrar printed at most four lines; code 1 otherwise |
| ExtractionService.ExtractRar | lib/Service/ExtractionService.php:70-95 | the loop over the entry list makes exactly the calls of RarCalls and answers RarResponse |
| ExtractionService.ExtractRarAsWritten | lib/Service/ExtractionService.php:82-83 | as written, the rar-extension branch throws before any entry is opened; without the extension it runs unrar once with a well-formed answer |
| ExtractionService.RarExtensionThrowsAsWritten | lib/Service/ExtractionService.php:83-89 | with the extension and a non-empty archive, the code as written extracts nothing, where the intended loop extracts the first entry first and answers code 1 |
| ExtractionService.RarAsWrittenAgreesWithoutExtension | lib/Service/ExtractionService.php:74-81 | without the rar extension the code as written and ExtractRar agree |
| ExtractionService.ExtractOther | lib/Service/ExtractionService.php:97-111 | one 7za run; code 0 with the p7zip message exactly when it printed at most five lines, code 1 otherwise |
| FileStore.Evicted | lib/Controller/ExtractionController.php:165-170 | deleting a node removes it and everything below it and keeps every other entry; a missing node changes nothing |
| FileStore.EvictedIdempotent | lib/Controller/ExtractionController.php:165-170 | evicting the same staging folder twice is evicting it once |
| FileStore.Unlinked | lib/Controller/ExtractionController.php:84 | unlink removes a file, leaves directories and every other entry alone |
| FileStore.Victims | lib/Controller/ExtractionController.php:78-86 | the loop's candidates are only files strictly below the folder, never directories; RemoveBlacklisted removes exactly this set |
| FileStore.Sanitized | lib/Controller/ExtractionController.php:78-86 | afterwards no blacklisted file remains below the root, and every entry that was not such a file is kept |
| FileStore.SanitizedIdempotent | lib/Controller/ExtractionController.php:78-86 | a second blacklist pass removes nothing more |
| FileStore.Store.NewFolder | lib/Controller/ExtractionController.php:155-158 | the folder is recorded as a directory; the log is unchanged |
| FileStore.Store.Delete | lib/Controller/ExtractionController.php:166-170 | the tree becomes the evicted tree; the log is unchanged |
| FileStore.Store.Unlink | lib/Controller/ExtractionController.php:84 | the tree becomes the unlinked tree; the log is unchanged |
| FileStore.Store.Perform | lib/Controller/ExtractionController.php:178-201 | the loop logs the backend calls in order and applies what each writes |
| FileStore.Store.Notify | lib/Controller/ExtractionController.php:89-108 | the move or scan is appended to the log; the tree is unchanged |
| ExtractionController.StagingName | lib/Controller/ExtractionController.php:159-163 | the staging folder name of a slash-free name has no slash; StagingNameDropsTar states which name it is |
| ExtractionController.StagingNameDropsTar | lib/Controller/ExtractionController.php:159-163 | the staging folder of a plain name is the name without a final ".tar", and the name itself otherwise |
| ExtractionController.CompoundTarName | lib/Controller/ExtractionController.php:186-188 | stem.tar.ext has file name stem.tar, whose extension is "tar" and whose own file name is stem |
| ExtractionController.AfterFirst | lib/Controller/ExtractionController.php:101 | a second part of the split is always a tail of the path that directly follows an occurrence of the pattern; AfterFirstAt and AfterFirstNone state which one |
| ExtractionController.AfterFirstAt | lib/Controller/ExtractionController.php:101 | the ungreedy split returns what follows the first occurrence of the pattern, when no newline precedes it |
| ExtractionController.AfterFirstNone | lib/Controller/ExtractionController.php:101 | without an occurrence of the pattern the split has no second part |
| ExtractionController.ScanPath | lib/Controller/ExtractionController.php:101-102 | the scan path starts with the owner and a slash, and what follows is empty or a tail of the local path that comes directly after /owner/ |
| ExtractionController.ScanPathIsOwnerRelative | lib/Controller/ExtractionController.php:101-102 | a local path .../owner/rest gives the scan path owner/rest |
| ExtractionController.ScanPathWithoutOwnerFolder | lib/Controller/ExtractionController.php:101-102 | a local path without /owner/ gives the scan path "owner/" |
| ExtractionController.ExtractionController.GetFile | lib/Controller/ExtractionController.php:57-61 | the archive is found exactly when directory/name is a node of the user's folder, and then it is that node's local path |
| ExtractionController.ExtractionController.AppPath | lib/Controller/ExtractionController.php:153 | the application directory lies below `<userId>`, beside the user folder `<userId>/files`, and ends in /appName |
| ExtractionController.ExtractionController.Staged | lib/Controller/ExtractionController.php:159-173 | the staged targets keep the file name, always set tmpPath, and the local and node folders both end in /archiveDir |
| ExtractionController.ExtractionController.Initial | lib/Controller/ExtractionController.php:145-176 | the file name is the archive's PATHINFO_FILENAME, and tmpPath is set exactly when `$external` is true; SiblingFolder and StagingInAppDir state where the folder lies |
| ExtractionController.ExtractionController.StagedTree | lib/Controller/ExtractionController.php:153-173 | no tree when a file sits at the application directory; otherwise the application directory is a directory, the staging folder is gone, every other entry outside it keeps its kind, and nothing but the application directory is added |
| ExtractionController.ExtractionController.Switch | lib/Controller/ExtractionController.php:178-201 | the response is well-formed; only a .tar.* name outside zip and rar changes the targets and unlinks a path; that path lies in the new extraction folder; the staging path is never changed |
| ExtractionController.ExtractionController.Finish | lib/Controller/ExtractionController.php:88-109 | a staging folder is moved to the user's directory/name; otherwise one scan as the owner of the looked-up node (the archive in the root directory, the new folder elsewhere), on the owner-relative path when the owner is someone else and on the caller's full path when it is the caller; no owner information is a fault |
| ExtractionController.ExtractionController.PrepareStaging | lib/Controller/ExtractionController.php:152-173 | a file at the app directory is a fault with nothing changed; otherwise the tree becomes StagedTree (the app directory created when missing, the stale staging folder evicted) and the result is the staged targets |
| ExtractionController.ExtractionController.ExtractNestedTar | lib/Controller/ExtractionController.php:187-196 | two 7za runs (the first given the clean name as destination, the second on the inner .tar into the sibling folder), then the inner .tar is unlinked |
| ExtractionController.ExtractionController.Dispatch | lib/Controller/ExtractionController.php:178-201 | the store's log grows by exactly the calls Switch names, and the tree becomes Switched: what those calls write, then the unlink of the nested .tar |
| ExtractionController.ExtractionController.RemoveBlacklisted | lib/Controller/ExtractionController.php:78-86 | the loop over the files below the folder leaves exactly the sanitized tree and logs nothing |
| ExtractionController.ExtractionController.PostExtract | lib/Controller/ExtractionController.php:76-110 | an extraction folder that is not a directory is a fault with nothing changed; otherwise the tree is sanitized and the log grows by the move or scan of Finish, or a fault when Finish fails |
| ExtractionController.ExtractionController.Extract | lib/Controller/ExtractionController.php:137-206 | the whole outcome of the request. Encryption gives code 0 with nothing changed, and a missing archive is a fault with nothing changed. A file at the app directory (external storage) is a fault with nothing changed. Otherwise D is the tree after staging and the switch. When the final folder is not a directory of D, the request faults after the backend calls. Otherwise the tree is D sanitized below that folder, and the request answers the dispatcher's response after one move or scan, or faults when Finish has no owner information |
| ExtractionController.ExtractionController.SiblingFolder | lib/Controller/ExtractionController.php:145-149 | without staging the extraction folder sits beside the archive and is named after it without its last extension |
| ExtractionController.ExtractionController.StagingInAppDir | lib/Controller/ExtractionController.php:152-173 | with staging the local and node folders are the same child of the app directory, named after the archive without ".tar" |
| ExtractionController.ExtractionController.NestedTarNaming | lib/Controller/ExtractionController.php:186-196 | for dir/stem.tar.ext: 7za first into the bare name stem, then dir/stem/stem.tar into dir/stem, which is the final folder; that .tar is unlinked |

## Findings

| source | as written | input that shows it | evidently intended | confidence | as-written member | corrected member |
|---|---|---|---|---|---|---|
| lib/Service/ExtractionService.php:83 | `$this->logger->debug()` passes no message to a logger method that requires one, so PHP throws ArgumentCountError | any rar request with the rar extension loaded | log a debug line, then extract every listed entry and answer code 1 | high, not executed; the logger interface is not part of this model | ExtractionService.ExtractRarAsWritten | ExtractionService.ExtractRar |

## Left out

- Decompression itself (ZipArchive, the rar functions, `unrar`, `7za`): each backend is an input. This includes whether the extension is loaded, the open result, the entry list, the number of output lines, and what each call writes to the local tree.
- Nextcloud's node API and path normalisation: the user folder and the root folder are maps and functions in `Environment`. The node tree and the local filesystem are one map of local paths, so the app directory and the stale staging folder are looked up by their local paths.
- FileStore.Store.Notify: the move of the staging folder is logged but not applied to the local tree, because the node move and its storage effects are not part of this model.
- The failure of `rootFolder->get($tmpPath)` or of the move itself is not modelled.
- ExtractionService.ExtractZip: follows PHP 7, where `extractTo` on an archive whose `open` returned an error code simply fails. PHP 8 throws a ValueError there instead. What `writes` yields for that `ZipExtractTo` call is not constrained to be empty after a failed open.
- ExtractionService.RarCalls: `rar_open`, `rar_list` and `rar_entry_get` failing (returning false) are not modelled.
- ExtractionController.ExtractionController.Switch: the `rar` branch uses the intended ExtractRar. As written, extractRar throws ArgumentCountError when the rar extension is loaded, so the request ends with that exception before postExtract; ExtractRarAsWritten and RarExtensionThrowsAsWritten state that.
- ExtractionController.ExtractionController.Initial: local paths are compared as raw strings, with no normalisation of empty or repeated slashes. For an archive named ".zip" PATHINFO_FILENAME is empty and extractTo is "<dir>/". The operating system takes that to be the archive's own directory, so the source extracts there and walks the whole directory. The model instead finds no directory "<dir>/" and faults, and `Under` matches nothing below it. In the same way, an archive in "/" gives "//name", which the model does not equate with "/name".
- ExtractionController.ScanPath: the owner's UID is matched literally. A UID holding regular-expression metacharacters or a slash would change the pattern in the source.
- ExtractionController.ExtractionController.Finish: compares the owner with the caller as strings. PHP's loose `!=` would also equate two numeric strings such as "1" and "01".
- Shell.EscapeShellArg: PHP rejects a NUL byte in the argument, and the model has no NUL check. PHP also drops every byte that is not a valid multibyte character in the host's LC_CTYPE locale, so under a locale other than UTF-8 non-ASCII path characters are lost. The model copies every character, which is PHP's behaviour under a UTF-8 locale. SevenZipArguments and UnrarArguments hold under that assumption only.
- FileStore.Victims: only regular files below the folder are candidates. The `.` and `..` entries the iterator also yields are directories, which `unlink` cannot remove, and symbolic links are not modelled.
- Concurrency between requests, logging and the translation of messages: `desc` is a tag.
- `getMounts` (unused by the request) and `appinfo/app.php` (registration) are not part of this model.
