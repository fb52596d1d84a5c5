# Challenge generator for "Da Rules", modelled in Dafny

`challenge_generator.py` creates a custom challenge for the game *The
Binding of Isaac* from a save file of the mod "Da Rules". Its one function,
`create`, does the following:

- It scans the save file for the last line holding both `[data]` and
  `[/data]`, and takes the payload between them.
- It raises an exception when there is no payload, or when the payload is
  empty.
- It fills in two defaults: the description and the directory name.
- It renders three fixed templates with `str.format` and writes them to a
  new mod directory: `metadata.xml`, `main.lua` and `content/challenges.xml`.

A small command-line front end maps `sys.argv` to a call of `create`.

The model leaves the file system out. The save file comes in as a
sequence of lines. What `create` would write comes out as a value.

The modules follow the program's pieces:

- `Common`: shared `Option`, `Result` and the two exceptions.
- `Strings`: the Python string operations used, i.e. `in`, `split` with the
  left-to-right search for the separator that it performs, `join` and
  iteration over the lines of a file.
- `Payload`: the marker scan.
  - `Extract` is the split expression for one line.
  - `LastPayload` and `PayloadOf` specify the scan and its falsy check.
  - `ReadPayload` is the loop itself, proved against `PayloadOf`.
- `Defaults`: the description and directory defaults.
  - The directory default is modelled as written.
  - The behaviour the doc-comment describes is a separate function.
- `StrFormat`: an interpreter `Format` for the part of `str.format` the
  templates use: `{{`, `}}`, `{key}`, and its `ValueError`/`KeyError`
  cases.
- `Templates`: the three templates, with their literal text cut into
  brace-free pieces.
  - The rendering functions are proved equal to what `Format` makes of
    each template with the source's keyword arguments.
  - Lemmas state what each rendered file contains, and that `main.lua`
    carries the payload back out.
- `Generator`: `Create`, the steps of `create` in the source's order.
- `Cli`: the argument handling of the `__main__` block, as written and as
  intended.

## Model

| member | source | states |
|---|---|---|
| Strings.Contains | challenge_generator.py:63 | `pat in s`: the empty pattern is in every text, and a pattern longer than the text is in none |
| Strings.Find | challenge_generator.py:64 | the search `split` performs: the index found holds the separator and no earlier index does; no index is found exactly when the separator occurs nowhere |
| Strings.FindIffContains | challenge_generator.py:63 | `pat in s` holds exactly when a first occurrence exists |
| Strings.Split | challenge_generator.py:64-65 | `split` gives at least one piece, and at least two exactly when the separator occurs |
| Strings.SplitJoin | challenge_generator.py:64-65 | joining the pieces of `split` with the separator restores the text |
| Strings.SplitPiecesAvoid | challenge_generator.py:64-65 | no piece of `split` contains the separator |
| Strings.FirstPieceIsHead | challenge_generator.py:65 | `split(sep)[0]` is the text before the first separator, or all of it |
| Strings.FirstPieceSpec | challenge_generator.py:65 | that first piece is a separator-free prefix ending at the text's end or at an occurrence, with no occurrence starting inside it |
| Strings.SecondPieceIsSecond | challenge_generator.py:64 | when the separator occurs, `split(sep)[1]` exists and is the text after the first separator up to the next one |
| Strings.Join | challenge_generator.py:72 | `sep.join(parts)` starts with the first part, followed by `sep` when there is a second part |
| Strings.JoinSplitReplaces | challenge_generator.py:72 | `'_'.join(s.split(' '))` turns every space of `s` into `_` and changes nothing else |
| Strings.Lines | challenge_generator.py:60 | iterating over a file gives only non-empty lines |
| Strings.LinesConcat | challenge_generator.py:60 | the lines of a text, put back together, are the text |
| Strings.LinesBreakAtEnd | challenge_generator.py:60 | each line ends at its first `'\n'`: no line break before its last character, and every line but the last ends with one |
| Strings.LinesAppend | challenge_generator.py:60 | the lines of a text ending in a line break followed by more text are the lines of the two parts, in order |
| Strings.LinesAvoid | challenge_generator.py:60 | no line holds a pattern the whole text does not hold |
| Strings.SingleLine | challenge_generator.py:60 | a text whose only line break is its last character is one line |
| Payload.Matches | challenge_generator.py:63 | a line that passes the guard is at least as long as `[/data]` |
| Payload.MatchesIffFound | challenge_generator.py:63-64 | the guard holds exactly when the searches for `[data]` and for `[/data]` both succeed |
| Payload.Extract | challenge_generator.py:64-65 | the payload of a matching line contains neither `[data]` nor `[/data]` |
| Payload.ExtractIsSplit | challenge_generator.py:64-65 | that payload is `line.split('[data]')[1].split('[/data]')[0]` |
| Payload.ExtractIsCut | challenge_generator.py:64-65 | the payload is the substring that starts right after the first `[data]`, and ends at a marker or at the end of the line |
| Payload.ExtractExact | challenge_generator.py:64-65 | for `p + "[data]" + X + "[/data]" + q`, with no `[data]` in `p` and neither marker in `X`, the line matches and the payload is exactly `X` |
| Payload.ExtractBetween | challenge_generator.py:64-65 | `"[data]" + X + "[/data]"` matches and yields exactly `X` |
| Payload.LastMatch | challenge_generator.py:60-63 | the index returned is a matching line with no matching line after it; none is returned exactly when no line matches |
| Payload.LastPayload | challenge_generator.py:59-65 | `data` stays `None` exactly when no line matches; otherwise it is free of both markers |
| Payload.LastPayloadStep | challenge_generator.py:60-65 | one more line overwrites `data` with that line's payload when it matches, and leaves `data` unchanged otherwise |
| Payload.LastMatchWins | challenge_generator.py:60-65 | the last matching line alone decides `data` |
| Payload.PayloadHasSource | challenge_generator.py:60-65 | a payload always comes from the last matching line |
| Payload.AppendNoMatch | challenge_generator.py:60-65 | lines without both markers leave `data` as it was |
| Payload.AppendWithMatch | challenge_generator.py:60-65 | once a later block of lines has a match, the earlier lines have no effect |
| Payload.PayloadOf | challenge_generator.py:68-69 | a payload that passes the falsy check is non-empty and free of markers; a failure is always the "could not get data" exception |
| Payload.PayloadFailsExactly | challenge_generator.py:59-69 | the exception is raised exactly when no line matches, or when the last matching line yields the empty payload |
| Payload.PayloadIsLastMatch | challenge_generator.py:60-69 | a last matching line with a non-empty payload makes that payload the result |
| Payload.EmptyLastPayloadRaises | challenge_generator.py:63-69 | an earlier non-empty payload does not save a later empty one from the exception |
| Payload.ReadPayload | challenge_generator.py:59-69 | the loop that reassigns `data` line by line ends with the outcome `PayloadOf` specifies |
| Payload.PayloadOfLineBetween | challenge_generator.py:60-69 | whole lines before a matching line, and non-matching lines after it, do not change its payload being the result |
| Defaults.DescriptionOrDefault | challenge_generator.py:71 | a non-empty description is kept; `None` or `""` becomes `No description given.`; the result is never empty |
| Defaults.DirectoryNameAsWritten | challenge_generator.py:72 | `None` raises the `AttributeError` and nothing else does; a non-empty name is kept |
| Defaults.EmptyDirectoryNameStaysEmpty | challenge_generator.py:72 | the fallback as written turns `""` into `""` |
| Defaults.IntendedDirectoryName | challenge_generator.py:18 | a non-empty name is kept; otherwise the challenge name is used with each space replaced by `_` |
| Defaults.IntendedDirectoryNameHasNoSpace | challenge_generator.py:18 | the fallback name has no space and is as long as the challenge name |
| Defaults.TwoWordDirectoryName | challenge_generator.py:18 | two space-free words joined by a space become the two words joined by `_` |
| Defaults.DirectoryDefaultDisagreement | challenge_generator.py:72 | the code agrees with the doc-comment exactly when a non-empty directory name is given, or `""` together with an empty challenge name |
| StrFormat.Format | challenge_generator.py:87 | `str.format` from left to right: the empty template gives the empty text; a `KeyError` names a plain field name missing from the keyword arguments; an unsupported field is one that is not a plain name |
| StrFormat.FormatLiteral | challenge_generator.py:86-95 | brace-free text is copied unchanged whatever the arguments |
| StrFormat.FormatOpenBrace | challenge_generator.py:42 | `{{` stands for one `{` |
| StrFormat.FormatCloseBrace | challenge_generator.py:42 | `}}` stands for one `}` |
| StrFormat.FormatLoneCloseBrace | challenge_generator.py:86-95 | a single `}` makes `str.format` raise |
| StrFormat.FormatField | challenge_generator.py:26 | `{key}` is replaced by the keyword argument's value verbatim, or raises `KeyError` when it is missing |
| StrFormat.FormatConcat | challenge_generator.py:86-95 | formatting reads left to right: a prefix that formats contributes its result in front of the rest's |
| StrFormat.FormatAppend | challenge_generator.py:86-95 | two pieces that format without error format together as their results joined |
| StrFormat.FormatTextFieldText | challenge_generator.py:26-29 | a field between brace-free texts is replaced by its value |
| StrFormat.FormatTextPairText | challenge_generator.py:42 | `{{}}` between brace-free texts becomes `{}` |
| Templates.MetadataTemplate | challenge_generator.py:24-34 | the literal of `template_metadata`, cut into brace-free pieces around the fields `{name}`, `{directory}` and `{description}` |
| Templates.MainTemplate | challenge_generator.py:36-45 | the literal of `template_main`, cut into brace-free pieces around `{name}`, `{data}` and `{{}}` |
| Templates.ChallengesTemplate | challenge_generator.py:47-50 | the literal of `template_challenges`, cut into brace-free pieces around `{name}` |
| Templates.MetadataArgs | challenge_generator.py:87 | exactly the keywords `name`, `directory` and `description`, with the values given |
| Templates.MainArgs | challenge_generator.py:91 | exactly the keywords `name` and `data`, with the values given |
| Templates.ChallengesArgs | challenge_generator.py:95 | exactly the keyword `name`, with the value given |
| Templates.MetadataXml | challenge_generator.py:86-87 | `metadata.xml` is what `template_metadata.format(name=…, directory=…, description=…)` gives, without error |
| Templates.FormatMetadataShape | challenge_generator.py:24-34 | a text laid out like `template_metadata` formats to its brace-free pieces with the three values put in |
| Templates.MetadataMentions | challenge_generator.py:26-30 | `metadata.xml` always holds `<id>848225254</id>` and `<version>1.1</version>`, and the name, directory and description inside their elements |
| Templates.MainLua | challenge_generator.py:90-91 | `main.lua` is what `template_main.format(name=…, data=…)` gives, without error |
| Templates.FormatMainShape | challenge_generator.py:36-45 | a text laid out like `template_main` formats to its pieces with the values put in and `{{}}` read as `{}` |
| Templates.MainMentions | challenge_generator.py:36-42 | `main.lua` holds `local challengename = "<name>"` and `local moddata = "[data]<data>[/data]"`, each followed by a line break, and `DRChallengesData = {}` |
| Templates.NameLineIsLine | challenge_generator.py:36 | the filled name line is one line when the name has no line break |
| Templates.DataLineIsLine | challenge_generator.py:37 | the filled payload line is one line when the payload has no line break |
| Templates.MainLuaLines | challenge_generator.py:36-37 | for a name and a payload without line breaks, the first two lines of `main.lua` are `local challengename = "<name>"` and `local moddata = "[data]<data>[/data]"`, followed by the lines of the rest of the template |
| Templates.ChallengesXml | challenge_generator.py:94-95 | `challenges.xml` is what `template_challenges.format(name=…)` gives, without error |
| Templates.FormatChallengesShape | challenge_generator.py:47-50 | a text laid out like `template_challenges` formats to its pieces with the name put in |
| Templates.ChallengesMentions | challenge_generator.py:48 | `challenges.xml` names the challenge and always has `endstage="12" altpath="false"` |
| Templates.NoSlashInMainTail | challenge_generator.py:38-45 | the template text after the payload line holds no `/` |
| Templates.MainTailHasNoMatch | challenge_generator.py:38-45 | no line after the payload line of `main.lua` holds both markers |
| Templates.DataLineYields | challenge_generator.py:37 | the rendered payload line is one line, matches, and yields the payload back |
| Templates.MainLuaCarriesPayload | challenge_generator.py:37 | scanning `main.lua` as lines 59-69 scan the save file gives back the payload it was rendered with, whatever the challenge name |
| Generator.Create | challenge_generator.py:59-96 | no payload raises the data exception first; then a `None` directory name raises the `AttributeError`; otherwise the directory is the given name and the three files are the three `Format` results; a payload without a line break can be read back out of `main.lua` |
| Cli.UsageMessage | challenge_generator.py:107 | the usage line starts with `Usage: ` and the script's path, followed by the fixed 48-character argument summary |
| Cli.OptionalAt | challenge_generator.py:110-111 | `args[i] if guard else None`: `None` without reading when the guard fails; otherwise the element, or an `IndexError` for `i` |
| Cli.At | challenge_generator.py:110-111 | `args[i]` is the element when `i` is in range, and an `IndexError` for `i` otherwise |
| Cli.SelectCall | challenge_generator.py:104-112 | fewer than 2 arguments print the usage line and exit with 1; exactly 2 fail reading `args[2]`; exactly 3 fail reading `args[3]`; 4 or more call `create` with the first four |
| Cli.ExtraArgumentsIgnored | challenge_generator.py:112 | arguments after the fourth change nothing |
| Cli.IntendedSelectCall | challenge_generator.py:107 | as the usage line promises: never an `IndexError`; 2 or more arguments call `create`, with the description and the directory name present exactly when given |
| Cli.SelectCallDisagreement | challenge_generator.py:110-111 | the script as written and as intended agree exactly for fewer than 2 or at least 4 arguments |

## Left out

- Opening, reading and closing the save file, and writing the three output files (lines 57, 66, 85-96). These are file I/O. The save file is a sequence of lines, and the three texts are returned in a `Challenge` value.
- The file path in the message of the "could not get data" exception (line 69). `CouldNotGetData` carries no path, because the model has no paths.
- Python's universal-newline translation when reading the save file. `Lines` splits at `'\n'` only.
- `os.path.join`, the Steam path and the backslash sub-path of the save file (lines 52-56, 75-76). These depend on the operating system's path rules. `Create` takes no Steam path, and the directory appears only as its name.
- `os.mkdir` and the `FileExistsError` it swallows (lines 78-82). These are file-system effects. When the challenge directory already exists, `content` is not created, so the later write of `challenges.xml` would fail unless `content` already exists. An empty directory name, which the code as written keeps, makes the files go into the `mods` folder itself. Neither effect is modelled.
- `print('Done.')`, the usage `print` and `sys.exit` (lines 98, 107-108). These are console and process effects. The usage case is a `UsageError` value holding the message and the exit status.
- Escaping of XML or Lua text. The source does none, and the model substitutes raw text as the source does.
- `str.format` beyond what the templates use: conversions, format specifications, attribute and index lookup, positional fields. `Format` reports any such field as `UnsupportedField` instead of interpreting it.
- Generator.Create: follows the code as written. It uses `DirectoryNameAsWritten`, not the intended directory default. The corrected `IntendedDirectoryName` and `IntendedSelectCall` are separate members that nothing else in the model calls. Through the command line as written, `create` only ever receives a description and a directory name that are strings, never `None`.
- Templates.MainLuaCarriesPayload: stated only for payloads without a line break. A line whose only `[/data]` comes before `[data]` has a payload running to the end of the line, including its `'\n'`, and rendering such a payload moves part of it onto a new line of `main.lua`.

## Findings

| source | as written | input that shows it | evidently intended | confidence | as-written member | corrected member |
|---|---|---|---|---|---|---|
| challenge_generator.py:72 | the fallback of the directory default splits `directory_name` itself | `directory_name=None` raises `AttributeError`; `directory_name=""` gives `""` | the challenge name with its spaces replaced by `_`, as the doc-comment at line 18 says | high; not executed | Defaults.DirectoryNameAsWritten (with Defaults.DirectoryDefaultDisagreement and Defaults.EmptyDirectoryNameStaysEmpty) | Defaults.IntendedDirectoryName (with Defaults.IntendedDirectoryNameHasNoSpace and Defaults.TwoWordDirectoryName) |
| challenge_generator.py:110-111 | `args[2]` is read when there are at least 2 arguments and `args[3]` when there are at least 3 | a Steam path and a name alone (2 arguments) raise `IndexError` at `args[2]`; 3 arguments raise it at `args[3]` | the optional arguments are read only when present (`> 2`, `> 3`), as the usage line at line 107 marks them optional | high; not executed | Cli.SelectCall (with Cli.SelectCallDisagreement) | Cli.IntendedSelectCall |
