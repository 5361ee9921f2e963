# MoCA CNU statistics parser, modelled in Dafny

`parser.py` reads a log of a MoCA networking device one line at a time. It picks
out the lines that carry CNU link statistics and writes each one as a fixed-layout
text block. With the debug flag, it lists at the end the lines it could not parse.
This project models that core:

- **`line_regex` and `parse_cnu_line`** (parser.py:20-31, 44-108).
  - The header pattern is a list of atoms: fixed literals, greedy runs of one character class, and the signed number `-?\d+`. The lazy `.*?per channel\s*(.*)$` after it is a search for the first marker (`Header`, `Pattern`).
  - Every run in the pattern is followed by something its class excludes. So the greedy scanner never has to backtrack. The project proves that the scanner finds a match exactly when the line can be cut into pieces that fit the atoms, and that the pieces found are the only such cut.
  - `Parse` turns the match into a `Record` of thirteen text fields plus the channels. Group 1 is dropped, and groups 8 and 10 are stripped with `str.strip()` (`CnuParser`).
- **`channel_regex` and `findall`** (parser.py:34-42, 73). `FindAll` scans left to right. After a match it resumes at the end of that match; where no group starts, it moves on one character (`Channels`).
- **Rendering** (parser.py:137-162). `Render` gives the block of one record, one string per output line (`Report`).
- **The loop of `main`** (parser.py:126-168). `Driver.Process` loops over the input lines and writes blocks and the debug listing line by line. It is proved equal to the specification function `Output`. Lemmas about `Output` state:
  - order: matched lines are written in input order, and rejected lines are listed in input order;
  - partition: every line is either parsed or rejected;
  - provenance: everything written comes from an input line;
  - when the debug banner appears.

Character classes:
- `\s` is the set of characters CPython's `str.isspace`-style test accepts. Both `re` (on `str` patterns) and `str.strip()` use this set.
- `\d` and `\w` are restricted to ASCII.

Details of the code that the model keeps:

- The divider line is 51 hyphens (parser.py:137, 162; `Report.DividerHyphens`).
- A rejected line is listed as it stands after `rstrip("\n")` (parser.py:129, 133).
- The CNU group is `<id,mac>` with a comma between the id and the MAC (parser.py:28). A line written that way parses with its pieces (`CnuParser.ParseRoundTrip`).
- The Rx tag needs at least one whitespace character after `/` and after `,` (parser.py:29).
- The timestamp and the percentage are any non-empty run of digits and dots (parser.py:23, 29).

## Model

| member | source | states |
|---|---|---|
| Scan.Star | parser.py:21 | `\s*` takes the longest run of whitespace; the text is that run followed by what stops it |
| Scan.Plus | parser.py:22-29 | `cl+` fails exactly when the text does not start with a character of the class; otherwise it takes the longest non-empty run |
| Scan.Literal | parser.py:22-29 | a fixed piece of pattern text matches exactly when the line continues with it, and leaves what follows |
| Scan.FindFirst | parser.py:30 | the lazy `.*?per channel` stops at an occurrence of the marker, and there is none earlier; `None` means the marker does not occur at all |
| Scan.Strip | parser.py:62-64 | `str.strip()` leaves no whitespace at either end |
| Scan.StripPieces | parser.py:62-64 | `str.strip()` removes only whitespace, and only from the two ends |
| Scan.StripPadded | parser.py:62-64 | a trimmed text padded with whitespace strips back to itself |
| Scan.StripIdempotent | parser.py:62-64 | stripping twice is stripping once |
| Pattern.ScanSigned | parser.py:37 | `-?\d+` reads an optional minus followed by digits, and the digit run is maximal |
| Pattern.Step | parser.py:20-42 | one atom of a pattern consumes text fitting it and leaves text that stops its run |
| Pattern.Match | parser.py:49 | soundness of `pattern.match`: the match is pieces fitting the atoms in order, followed by the rest of the text |
| Pattern.MatchComplete | parser.py:20-42 | completeness: text cut into pieces that fit a separated pattern is matched, giving back exactly those pieces |
| Channels.GroupPatternSeparated | parser.py:34-42 | every run in `channel_regex` is followed by a character its class excludes |
| Channels.ScanGroup | parser.py:34-42 | a group read at the start of the text is well formed, starts at `<`, and consumes text |
| Channels.ScanGroupText | parser.py:34-42 | what a group match consumes is the group written out, with only whitespace after the band index's colon |
| Channels.PiecesOfGroup | parser.py:35-41 | the seven captures of a group are the seven channel fields; `rxPower` may keep a leading `-`, and the other six are non-empty digit strings |
| Channels.GroupComplete | parser.py:34-42 | a well-formed group written out is read back exactly, and the scan continues right after it |
| Channels.FindAllValid | parser.py:73 | every channel `findall` returns is well formed |
| Channels.FindAllSkips | parser.py:73 | text holding no `<` contributes no channels |
| Channels.GroupTextOpensOnce | parser.py:34-42 | a group written out holds exactly one `<`, its first character |
| Channels.NoGroupBefore | parser.py:34-42 | a match cannot run on into a following `<`: where no group starts in a text, none starts there once a text opening with `<` follows |
| Channels.FindAllPasses | parser.py:73 | text in which no group starts at any position contributes no channels, whatever group follows it |
| Channels.FindAllInterleaved | parser.py:73 | groups separated by any text in which no group starts are all found, in order, and nothing else is |
| Channels.FindAllLaidOut | parser.py:73 | the segment always consists of the groups returned, in order, with some text between and around them |
| Header.GroupAtoms | parser.py:22-29 | each of the fourteen header groups is captured by a non-empty run of its class |
| Header.HeaderPatternSeparated | parser.py:20-29 | every run in `line_regex` up to `%>` is followed by something its class excludes, so matching needs no backtracking |
| Header.ScanTail | parser.py:30 | `.*?per channel\s*(.*)$` cuts at the first marker and takes the whitespace after it; it fails exactly when the marker is absent |
| Header.TailAt | parser.py:30 | the cut at the first marker puts the text back together and is a valid tail |
| Header.TailComplete | parser.py:30 | a tail made of marker-free text, the marker, whitespace and a segment is read back exactly |
| Header.MatchHeader | parser.py:49 | a header match is pieces fitting the pattern plus a tail, and together they make up the line |
| Header.MatchHeaderComplete | parser.py:20-31 | every line with the header's shape is matched, with exactly its own pieces |
| Header.MatchHeaderExactly | parser.py:49-51 | a line matches as `m` if and only if `m` fits the pattern and spells out the line |
| CnuParser.StripWithin | parser.py:62-64 | stripping keeps every character inside its class |
| CnuParser.GroupClasses | parser.py:54-69 | each captured group of a match is a non-empty run of its class |
| CnuParser.RecordOf | parser.py:53-106 | the record built from a match has every field in its class, the two stripped fields trimmed, and every channel well formed |
| CnuParser.ParseValid | parser.py:44-108 | whatever `parse_cnu_line` returns is a valid record |
| CnuParser.ParseAcceptsExactly | parser.py:44-51 | a line is parsed if and only if it can be read as the whole header shape; there is never a partial record |
| CnuParser.ParseRoundTrip | parser.py:49-73 | a line built from fitting pieces parses to those pieces verbatim, except the port device and the MAC, which come back stripped; the channels are those of the segment after the first marker |
| CnuParser.NoGroupsNoChannels | parser.py:70-73 | a header whose segment has no position where a group starts still yields a record, with an empty channel list |
| CnuParser.IdentifierDropped | parser.py:54 | the identifier is validated but not kept: lines that differ only there parse alike |
| CnuParser.GroupsTextStart | parser.py:30 | groups written back to back start with `<`, which ends the whitespace run after the marker |
| CnuParser.GroupsTextFound | parser.py:73 | groups written back to back are all found again, in order |
| CnuParser.MatchForValid | parser.py:20-31 | the line a writer would produce from a digit identifier and a valid record with a non-empty port device and MAC fits the header pattern and spells out exactly that line |
| CnuParser.ParseLineFor | parser.py:44-108 | every valid record with a non-empty port device and MAC is the parse of some line: the writer's line parses back to it |
| Report.SourceName | parser.py:146 | the source is named `Micronode` or `CNU` |
| Report.FillUnfill | parser.py:153-161 | a line made of fixed labels and space-free values can be read back into those values |
| Report.ReadChannelLine | parser.py:153-161 | the channel line of a well-formed channel shows all seven values, recoverable in order |
| Report.ChannelLines | parser.py:152-161 | one line per channel, in list order |
| Report.DividerHyphens | parser.py:137 | the divider is 51 hyphens |
| Report.Render | parser.py:137-162 | a block has fifteen lines plus one per channel |
| Report.RenderShape | parser.py:137-162 | a block opens and closes with the divider, has `Channel Stats:` at line 13, and the channel lines after it in order |
| Report.RenderReadBack | parser.py:137-162 | the block loses nothing but the spelling of the source type: the record can be read back with its source type normalised to "0" or "1" |
| Report.RenderInjective | parser.py:137-162 | two valid records with the same block differ at most in how the source type is spelled |
| Report.RenderSource | parser.py:146-147 | the source line shows `Micronode` if and only if the source type is "0", and `CNU` otherwise |
| Report.RenderLinesLead | parser.py:137-162 | every line of a block is non-empty and starts with `-`, a space or a capital letter |
| Driver.TrimNewlines | parser.py:129 | `rstrip("\n")` gives a prefix that does not end in a newline, and removes only newlines |
| Driver.TrimNewlinesExact | parser.py:129 | it removes every trailing newline and nothing else |
| Driver.Process | parser.py:126-168 | the loop writes exactly `Output(raw, debug)`, the blocks of the parsed lines followed by the debug listing |
| Driver.WriteBlock | parser.py:137-162 | the lines written for one record are its block |
| Driver.WriteDebug | parser.py:165-168 | the debug listing is written only when debug is set and some line was rejected |
| Driver.Provenance | parser.py:128-134 | every record written and every line listed comes from an input line with that verdict |
| Driver.Sorted | parser.py:130-134 | every record written is a valid parse, and every line listed as rejected fails to parse |
| Driver.Partition | parser.py:128-134 | each line is either parsed or rejected, never both and never dropped |
| Driver.MatchedAppend | parser.py:128-134 | records and rejections keep input order: those of two inputs in sequence are concatenated |
| Driver.OutputAppend | parser.py:128-162 | without the debug flag, the output for two inputs in sequence is the two outputs in sequence |
| Driver.BlocksLead | parser.py:137-162 | no line of any block can be mistaken for the debug banner |
| Driver.BannerShown | parser.py:165-166 | the banner appears if and only if debug is set and some line was rejected |
| Driver.DebugListing | parser.py:165-168 | with debug set, the output ends with one `NO MATCH: ` line per rejected line, in input order, after all blocks and the banner |
| Driver.NoMatchLinesAt | parser.py:167-168 | the i-th `NO MATCH` line shows the i-th rejected line |

## Left out

- Argument parsing, opening and closing files, `sys.stdout` and UTF-8 decoding (parser.py:112-124, 127, 170-172) are left out. They are plumbing around the logic. Process takes the input lines as a sequence of strings and returns the output lines.
- Splitting the file into lines, and newline translation, are left out. Each input string is one line as the file iterator yields it.
- Output is a sequence of lines without their terminators. `"\n=== DEBUG MODE: NO MATCH LINES ===\n"` is modelled as an empty line followed by the banner.
- Fatal errors when a file cannot be opened are left out. They are runtime exceptions, not part of the parsing logic.
- General Python `re` semantics are not modelled: the backtracking engine, Unicode `\d` and `\w`, and how `.` and `$` treat a newline. Only the two patterns are modelled, as scanners. Lines are assumed to hold no `\n`, which the loop ensures at parser.py:128-129.
- Parsing and rendering are modelled as functions on values. `parse_cnu_line` builds a fresh dict and list, and the model has no aliasing to capture there.
