# Ledger-based download dedup and caption pairing of the short-video maker

This project models the bookkeeping core of `config_env.py` in Dafny and proves
properties about it. The core is everything except the media processing.

- **`accountConfig`** derives the file names an account uses. Each account has
  two categories:
  - audio, per language: `audio_<language>.csv`;
  - video, per edition: `<edition.type>_<edition.content>.csv`.

  Each category has a **links** file under `Links/`, holding the identifiers that
  have been requested. It also has a **ledger** under `DB/` with the same name,
  holding the identifiers already downloaded. Both files start with the header
  line `video_id`.
- **`_create_file`** creates a missing file. A new `.csv` file gets the header
  line. An existing file is never touched.
- **`write_folders`** creates, for every account, the five files named above.
  The fifth is the account ledger `DB/<name>.csv`.
- **`download_media`** handles each account in turn. It parses both files of
  each category, trimming every line and dropping blank lines and the header.
  It computes `pending = links - ledger` for both categories before acting on
  either. For a category with something pending it does four things:
  1. writes the batch file `aux.csv`, one identifier per line;
  2. hands the batch file to the downloader, then removes it;
  3. deletes the links file and recreates it with only the header;
  4. appends the batch to the ledger, whatever the downloader did.
- **`audios_to_pickle`** pairs each audio file with a caption file, named by
  replacing `.wav` with `.pickle`. It transcribes only the audio files whose
  caption is missing. It then deletes every `.pickle` caption whose audio file it
  cannot find again.

How the model represents this:

- **Files.** The disk is a map from `(folder, file name)` to the text of the
  file. Files are text rather than lists of lines, because the text exposes one
  real effect. Appending to a ledger whose last line has no line break merges
  that line with the first appended identifier (`Ledger.UnterminatedAppendMerges`).
  Every links file, ledger and batch file the program writes ends with a line
  break, so the union property holds from any disk whose ledgers end lines
  (`Download.FetchAllKeepsTerminated`, `Download.WriteFoldersKeepsTerminated`).
- **Reading lines.** `Text.SplitLines` cuts a text into pieces at every `\n` and
  every `\r`. Each piece is one of the lines Python's universal-newlines mode
  yields, with its terminator removed. A `\r\n` gives an extra empty piece, and
  a text ending in a break gives an empty last piece. The parser drops blank
  pieces, so neither changes a parsed set.
- **Trimming.** `strip()` removes the characters Python's `str.isspace()`
  accepts.
- **Iteration order.** Python's iteration order over the pending set is
  unspecified. The ghost function `Download.Enumerate` fixes one order. The
  batch file and the ledger append use the same order, because the source
  iterates the same set object in both places.
- **The downloader** is recorded as a `Fetch(kind, folder, batch text)`. Its
  outcome is not observable in the model.
- **File-name rules.** Caption pairing uses `str.replace` exactly, and pathlib's
  `suffix`, `stem` and `with_suffix` rules for a single path component. When
  `stem.replace(".wav", "")` is empty or `.`, joining it to the audio folder gives
  the folder itself. `with_suffix` then names a file *beside* the folder. A
  boolean parameter says whether that file exists.
- **Aliased categories.** An account whose edition is `audio` with content equal
  to its language has audio and video categories that read the same two files.
  The model keeps that case: both pending sets are computed first, so the batch
  is downloaded twice and appended twice (`Download.AliasedCategoriesFetchTwice`).

Two further points about what config_env.py does:

- **The ledger and the downloader.** config_env.py appends the batch to the
  ledger whatever the downloader did (lines 96-104 and 113-121). The model does
  the same. The downloader's exit status is never read.
- **Missing files.** A missing links file or ledger is not an error. That
  category simply has nothing pending (lines 74 and 81).

## Model

| member | source | states |
|---|---|---|
| Text.Strip | config_env.py:77 | `line.strip()`: the result neither starts nor ends with whitespace, a string already trimmed is unchanged, and a line without line breaks stays without them |
| Text.StripIsSlice | config_env.py:77 | what `strip()` keeps is one contiguous slice of the line, and everything it removes on either side is whitespace |
| Text.SplitLinesBreakFree | config_env.py:75-77 | `Text.SplitLines` (lines 75-76) cuts the text into the lines Python reads, each without its terminator. No piece contains a line break, so every parsed identifier is a single line |
| Text.WriteLines | config_env.py:92-93 | the text written by `f.write(f"{x}\n")` for each element ends with a line break, and is non-empty when something was written |
| Text.SplitWriteLines | config_env.py:91-93 | reading back what was written one per line yields exactly the written lines, plus the empty piece after the final break |
| Text.SplitAppend | config_env.py:102-104 | appending to a text that ends with a line break keeps its lines and adds the appended text's lines after them |
| Names.LastDot | config_env.py:157 | the index of the last dot of a name, or -1: the character there is a dot and none after it is |
| Names.Suffix | config_env.py:157 | `PurePath.suffix` is empty or a dot followed by at least one dot-free character, and it is a proper tail of the name |
| Names.Stem | config_env.py:158 | `PurePath.stem` followed by the suffix gives back the name |
| Names.SplitExtension | config_env.py:40 | a non-empty base followed by a one-dot extension has exactly that extension as suffix and that base as stem |
| Names.DotFreeHasNoSuffix | config_env.py:159 | a name without dots has no suffix, so `Names.WithSuffix` (pathlib's `with_suffix`, line 159) appends the new suffix to the whole name |
| Names.ReplaceInDotFree | config_env.py:158 | `replace(".wav", …)` leaves a dot-free name unchanged |
| Names.ReplaceNoOccurrence | config_env.py:158 | `str.replace` leaves a string in which the pattern occurs nowhere unchanged |
| Names.ReplaceExtension | config_env.py:145 | `Names.Replace` is `str.replace` (lines 145 and 158). In `<dot-free base><ext>` the only occurrence of the extension is the final one, and only that one is replaced |
| Ledger.ParseIds | config_env.py:77-78 | every parsed identifier is non-blank, trimmed and single-line, and the header `video_id` is never in a parsed set |
| Ledger.ParseIdsFromLines | config_env.py:75-78 | every identifier parsed from a file, whatever blank lines, padding or `\r\n` it holds, is the stripped form of one of its lines |
| Ledger.ParseLinesShape | config_env.py:77-78 | `Ledger.ParseLines` and `Ledger.LineIds` compute the set comprehension of line 77. Every line whose stripped form is neither blank nor the header yields that stripped form, and every element is trimmed, non-blank and not the header |
| Ledger.ParseLinesFromLines | config_env.py:77 | the comprehension invents nothing: every element is the stripped form of one of the lines |
| Ledger.ParseWriteLines | config_env.py:91-93 | round trip: identifiers written one per line parse back to exactly the set written |
| Ledger.HeaderedIds | config_env.py:77-78 | a header line followed by identifiers one per line parses to exactly those identifiers |
| Ledger.ParseIdsAppend | config_env.py:102-104 | appending to a file that is empty or ends a line parses to the union of both parts |
| Ledger.UnterminatedAppendMerges | config_env.py:102-104 | counterexample: appending `b` to a ledger `video_id\na` without a final break yields the set `{ab}`, so `a` is lost and `b` never recorded |
| Ledger.HeaderFileIsEmpty | config_env.py:40-42 | the header file written by `_create_file` reads as the single line `video_id` and parses to no identifiers |
| Ledger.EmptyFileIsEmpty | config_env.py:39 | a file created by `touch` alone parses to no identifiers |
| Ledger.NewFileIsBlank | config_env.py:39-42 | `Ledger.NewFileText` is what `_create_file` writes into a new file. Any such file parses to nothing and ends a line, and a new `.csv` file is exactly the header line |
| Ledger.CreateFile | config_env.py:35-42 | `_create_file` adds the path if missing, leaves every existing file unchanged, and a new file holds what `_create_file` writes |
| Ledger.CreateFileIdempotent | config_env.py:35-42 | calling `_create_file` twice on a path is the same as calling it once |
| Accounts.ConfigOf | config_env.py:18-27 | `accountConfig` puts links files under `Links` and ledgers under `DB`, with each category's links file and ledger sharing one `.csv` name |
| Accounts.CreateFiles | config_env.py:53-59 | a sequence of `_create_file` calls adds exactly the listed paths, keeps existing files, and seeds new ones |
| Accounts.FilesToCreate | config_env.py:52-59 | the paths the account loop of `write_folders` creates are exactly the files each `accountConfig` names plus each account ledger |
| Accounts.AccountFilesAreConfigured | config_env.py:53-59 | `Accounts.AccountFiles` lists the five inline path templates of one iteration. They are the same paths `accountConfig` derives for that account, plus its account ledger |
| Accounts.WriteFolders | config_env.py:44-59 | after `write_folders` the files are the old ones plus exactly the configured ones, and old files are untouched |
| Accounts.WriteFoldersCoversConfig | config_env.py:55-59 | every links file and ledger that `accountConfig` later reads for any account exists after `write_folders` |
| Download.AudioCategory | config_env.py:21-25 | the audio category reads the audio links file and ledger that `accountConfig` names, and both have a `.csv` name |
| Download.VideoCategory | config_env.py:22-26 | the video category reads the video links file and ledger that `accountConfig` names, and both have a `.csv` name |
| Download.Pending | config_env.py:74-79 | `missing = links - db`, both directions. Every pending id is a parsed link, none is in the ledger, and every link missing from the ledger is pending. Pending ids are identifiers and never the header. Nothing is pending when either file is missing, and pending is empty exactly when the category is settled |
| Download.PendingExample | config_env.py:74-79 | worked example: links `a`, `b`, `c` against a ledger holding `a` and `b` leave exactly `c` pending |
| Download.PendingByPaths | config_env.py:74-86 | the pending set depends only on the two files a category reads |
| Download.Enumerate | config_env.py:92-93 | the iteration over the pending set visits every element exactly once |
| Download.BatchText | config_env.py:91-93 | the batch text ends with a line break and is non-empty when something is pending |
| Download.BatchTextListsPending | config_env.py:91-93 | the batch file lists each pending identifier on a line of its own, once, with no header, and parses back to the pending set |
| Download.ConsumeEffect | config_env.py:89-121 | `Download.Consume` models one `if missing:` block. With something pending, the block calls the downloader once on the batch and removes `aux.csv`. It recreates the links file and appends the batch to the ledger. No other file changes. With nothing pending, nothing changes |
| Download.ConsumeAppends | config_env.py:96-104 | the downloader is called once on the batch, and the ledger afterwards is its old text followed by the batch |
| Download.ConsumePending | config_env.py:89-104 | with something pending: the batch holds exactly the pending ids, none already in the ledger; the ledger keeps its old text as a prefix and, if it ended a line, parses to old ledger plus pending; the links file parses to nothing |
| Download.ConsumeNothingPending | config_env.py:71-89 | with a file missing or nothing pending, no batch is written, the downloader is not called and no file changes |
| Download.ConsumeSettles | config_env.py:99-104 | after acting on a non-empty pending set, the category's links are a subset of its ledger |
| Download.ConsumeKeepsSettled | config_env.py:89-104 | acting on one category never unsettles another settled category |
| Download.AliasedPaths | config_env.py:21-24 | an account with edition `audio` and content equal to its language has audio and video categories on the same files |
| Download.AliasedCategoriesFetchTwice | config_env.py:74-121 | for such an account, the pending batch goes to the downloader twice (as audio and as video) and is appended to the ledger twice |
| Download.FetchAccountKeepsSettled | config_env.py:69-121 | one account's iteration keeps every settled category settled |
| Download.FetchAccountSettles | config_env.py:69-121 | `Download.FetchAccount` models one iteration of the accounts loop. Afterwards both of that account's categories are settled |
| Download.FetchAllKeepsSettled | config_env.py:68-121 | the whole accounts loop keeps every settled category settled |
| Download.FetchAllSettles | config_env.py:68-121 | `Download.FetchAll` models `download_media`. Afterwards every category of every account is settled |
| Download.FetchAllQuiet | config_env.py:68-121 | when every category is settled, `download_media` calls no downloader and changes no file |
| Download.FetchAllIdempotent | config_env.py:68-121 | a second `download_media` with no new links calls no downloader and changes no file |
| Download.ConsumeExtendsLedgers | config_env.py:102-104 | a category's block only appends to ledgers: every ledger keeps its old text as a prefix |
| Download.FetchAccountExtendsLedgers | config_env.py:69-121 | one account's iteration only appends to ledgers |
| Download.FetchAllExtendsLedgers | config_env.py:68-121 | `download_media` never removes or rewrites ledger text; ledgers only grow at their end |
| Download.LedgerKeepsIds | config_env.py:102-121 | a ledger that ends a line keeps every identifier it held through `download_media` |
| Download.LedgeredNeverPending | config_env.py:77-79 | once an identifier is in a category's terminated ledger, no later run lists it as pending |
| Download.ConsumeKeepsTerminated | config_env.py:102-104 | appending the batch keeps every ledger ending with a line break |
| Download.FetchAllKeepsTerminated | config_env.py:68-121 | if every ledger ends a line before `download_media`, every ledger does afterwards |
| Download.WriteFoldersKeepsTerminated | config_env.py:35-59 | `write_folders` only creates ledgers that end a line |
| Captions.SyncCaptions | config_env.py:141-162 | `Captions.Keeps` is the pruning test of lines 156-160. An audio file is transcribed exactly when its caption is missing from the listing taken beforehand. Non-`.pickle` files and captions whose audio is found are kept. Every remaining caption passes `Keeps`. Every new caption belongs to a transcribed audio file. Every audio file whose caption passes `Keeps` ends with its caption |
| Captions.PairingRoundTrip | config_env.py:145-159 | `Captions.CaptionNameFor` gives the caption name (line 145), and `Captions.AudioLookupFor` gives the file the pruning loop looks for (lines 157-159). For `<id>.wav` with a dot-free id, the caption is `<id>.pickle` and the loop looks for exactly `<id>.wav` |
| Captions.PlainCaptionKept | config_env.py:156-160 | the caption of a present plain audio file survives pruning |
| Captions.PlainCaptionsDistinct | config_env.py:145 | different plain audio names get different caption names, so `Captions.CaptionNames`, the set of captions written, loses no audio file |
| Captions.SecondRun | config_env.py:141-162 | after one run the caption folder is a fixed point, and each later run transcribes exactly the audio files whose own caption the lookup misses |
| Captions.SyncSettles | config_env.py:141-162 | with plain audio names, a second run transcribes nothing and changes no caption |
| Captions.DottedCaptionName | config_env.py:145 | `a.b.wav` is paired with `a.b.pickle` |
| Captions.DottedLookup | config_env.py:157-159 | the pruning loop looks for `a.wav` when it checks `a.b.pickle` |
| Captions.DottedStemRetranscribed | config_env.py:156-162 | counterexample: with the audio file `a.b.wav`, every run transcribes it and then deletes the caption it wrote |
| Captions.PairedSync | config_env.py:141-162 | pairing-based pruning. Transcription is as in the source. Afterwards every audio file has its caption, and every caption the source keeps is kept. A remaining `.pickle` caption has its audio found by the lookup or paired by name. Every new caption belongs to a transcribed audio file |
| Captions.PairedSyncSettles | config_env.py:155-162 | with pairing-based pruning a second run transcribes nothing and changes no caption, for any names |
| Captions.PairedKeepsIffKeeps | config_env.py:156-162 | on plain audio names, the pairing-based rule keeps a caption exactly when the source's pruning does |
| Captions.PairedSyncAgrees | config_env.py:141-162 | on plain audio names, the corrected run and the run as written give the same transcriptions and the same caption folder |
| Captions.DottedStemPaired | config_env.py:156-162 | pairing-based pruning keeps `a.b.pickle` for `a.b.wav` |

## Left out

- `_create_folder` and the folders `write_folders` creates (config_env.py:29-33, 45-50, 62-66): the disk holds files only, and every folder is taken to exist.
- The downloader (`yt-dlp` via `os.system`, config_env.py:95-96, 112-113): it is recorded as a `Fetch` with its batch text. What it writes into the media folders and whether it succeeds are not modelled, because the source ignores both.
- Console messages (`print`) are not modelled.
- The mp3-to-wav conversion loop (config_env.py:123-130): it only renames files around an ffmpeg call.
- Whisper loading and transcription, and the pickle output (config_env.py:9-10, 147-153): a run records which audio files are transcribed. Caption contents are not modelled.
- Folder listings contain only regular files. Subdirectories of the audio or caption folders are not modelled. The `is_file()` filter of the listings is therefore the identity. A directory named `*.pickle`, which `os.remove` would fail on, is also not modelled.
- Path normalisation: configuration values containing `/`, or equal to `.` or `..`, are kept as plain name parts.
- Failures are not modelled: I/O errors, encoding errors, a missing `aux.csv` at removal, and exceptions from the transcriber.
- `resize_video` (config_env.py:164-177) is moviepy rendering with a floating-point aspect-ratio test, and is not part of this model.
- `clean_db` and the module-level code (config_env.py:180-196) are configuration I/O, and are not part of this model.
- `create_short.py` and `old create_short.py` are not part of this model. They are moviepy scripts. Script selection (`get_unique_script`), caption lists (`get_caption_list`) and clip assembly (`get_video_clip_list`) live in `old create_short.py`.
- Download.ConsumePending: the union of old ledger and pending set is proved only for a ledger that is empty or ends with a line break. For any other ledger it is false, as `Ledger.UnterminatedAppendMerges` shows.
- Download.LedgeredNeverPending: likewise stated only for a ledger that ends a line.

## Findings

| source | as written | input that shows it | evidently intended | confidence | as-written member | corrected member |
|---|---|---|---|---|---|---|
| config_env.py:158-159 | The audio file looked for is `stem.replace(".wav", "")` with its suffix then replaced by `.wav`. This drops everything after the last dot of the caption's stem. | The audio file `a.b.wav` gets the caption `a.b.pickle`. The pruning loop looks for `a.wav`, deletes the caption, and the next run transcribes `a.b.wav` again, forever. | A `.pickle` caption is deleted only when the lookup misses its audio file and no audio file in the folder is paired with it by name. On plain names this agrees with the source. | medium (names produced by the downloader have no dot before `.wav`); not executed | Captions.DottedStemRetranscribed | Captions.PairedSyncSettles |
