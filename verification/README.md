# A model of pglogwatch

pglogwatch reads PostgreSQL server logs (stderr, csvlog and jsonlog), in one scan, from any offset or
with several workers at once, follows the logs of a remote server, and masks the literals out of log
messages so that messages of one kind get one template. This project models these parts in Dafny and
proves what they promise:

- **Stream, framers, seek, parallel scan.** `Bytes`, `Framing`, `Stream`, `ReadBuffer`, `LineDrops`,
  `LineFiles`, `StderrLines`, `Records`, `Parsing` (in `Parser.dfy`), `TextLines`, `Seeking`, `Landing`,
  `StderrSeeking`, `StderrLosses`, `JsonSeeking`, `JsonShams`, `Workers`, `Parallel`, `ShardSizes`. The read buffer and the parser are classes over an array and a
  reader that hands out its bytes in pieces of any size. They are proved against a scan that sees the
  whole input at once; the parallel scan is a state machine whose steps any worker may take at any
  time.
- **Message masker.** `Tokenizer`, `Rules`, `Masking` say what a template is; `Scanners`, `Reading`,
  `Appending`, `Masker` are the loops, which write into the caller's buffer in place. `ListGrammar`
  is an independent definition of a template by look-ahead. `Limits`, `Cutting`, `Utf8`, `TokenEdges`,
  `Templates` treat the limit and the encoding; `Prefixes`, `Suffixes`, `Gaps`, `Leading`,
  `Invisible`, `CommentShows` show that literals do not show, and when a comment does; `Idempotence`,
  `PlainMessages`, `Relapse`, `RelapseKeys` treat masking twice. `Steps`, `Twins`, `MessageSuffixes`,
  `Words`, `Verbatim` take a message step by step, and with them `Quoting`, `Hidden`, `MarkerPlaces`,
  `TokenForms`, `Fusion` say on the bytes what the template hides and what it shows; `PlainTemplates`,
  `PlainStatements`, `MarkerTexts` spell the whole template of a plain message and of a plain statement.
- **Printers and parsers.** `Csvlog`, `CsvFields`, `Numbers`, `Unescaping`, `Escapes`, `Jsonlog`,
  `JsonKeys`, `JsonFields`, `JsonSpaces`, `Events`, `Writers`, `Readers`, `RoundTrips`, `WholeFiles`: what is written as csvlog (section 2 of RFC 4180) or as jsonlog
  (section 7 of RFC 8259) is read back, in UTF-8 (section 3 of RFC 3629).
- **Remote follower.** `Following` is the protocol between the reader and a server that appends while
  it is read; `Holding` bounds what it holds; `RemoteReader` is the object whose steps are proved to be
  those of the protocol.
- **Local files.** `OffsetStore` is the bounded store of offsets, a list and a map updated in place;
  `FileSets` are passes over a directory whose files grow; `LocalHolding` says what a turn delivers and
  reads; `LocalReader` is the object.

A function that a method is proved against is named after what it means (`Split`, `NextToken`,
`TokenAt`, `Drafted`, `ColumnsFrom`, `ObjectMembers`, `Turn`), and the main results are about these
functions.

## Findings

What the code does not promise, each with an input that shows it, and with the exact condition where
it does:

- Masking is not idempotent on every message. `Relapse.MaskingAgainCanChange` gives a message whose
  literal hides a statement marker that its template shows, and `RelapseKeys.MaskingKeysAgainCanChange`
  one whose `=` is a key's the first time only; both lose a comment when they are masked again.
  `PlainMessages.MaskingIsIdempotent` gives a class of messages, told from their bytes, on which
  masking is idempotent.
- A comment is not always invisible. Whether a sign behind it belongs to the number after it depends
  on the comment's last byte: the messages `statement: --a` and `statement: --!`, each with `-1` on
  the next line, have different templates (`CommentShows.CommentCanShow`). `Invisible.CommentShowsSign`
  is the exact condition.
- A seek in a jsonlog file can read a record that the file does not hold, as the object scanner does
  not look behind the closing brace (`JsonShams.SeekIsMisled`), and can lose an indented record, which
  the scanner accepts and the start test does not (`JsonShams.IndentedIsLost`).
  `JsonSeeking.JsonSeekExact` is the exact condition.
- A stderr record that is too long is dropped up to its next newline only, so its continuation lines
  come back as records, and a seek to the offset of one loses it (`StderrLosses.RestIsLost`).
  `StderrSeeking.StderrIsMarked` is the exact condition under which every record can be told by its
  first line, and `Seeking.SeekExact` the exact condition for one seek.
- A pass over local files that is given up loses the rest of a file that was closed and not yet
  delivered, as its offset is recorded first (`FileSets.RestIsNeverDelivered`).
  `FileSets.GivingUpLosesTheRest` says that nothing else is ever lost.
- A seek from the end that is refused because its offset is negative has already moved the reader to
  the end, so that what was not read before is not read any more, for every file that was not read to
  its end (`Parsing.Parser.Resolve`).
- The documentation of `FlagTruncated` says that it is also set when `MaxRecordBytes` is hit
  (`flags.go:22-24`); such a record is dropped and counted instead (`buf.go:138-144`). The model
  follows the code.

## Model

| member | source | states |
|---|---|---|
| Framing.SplitStable | csv.go:62-95 | An answer that the csvlog, jsonlog or stderr splitter gives on a partial window is the answer it gives on any longer window, at the end of the input or not, and ends at a newline |
| Framing.SplitProgress | dispatch.go:97-118 | At the end of the input every splitter decides on every non-empty window and makes progress, so no scan gets stuck |
| Framing.ParityIsQuoting | csv.go:62-95 | Counting quotes between two newlines decides whether a position is inside a quoted column; a stretch without a newline can be skipped whole |
| Framing.SplitCSVRecord | csv.go:62-95 | The loop over newlines and quote counts cuts where the state machine over single bytes does |
| Framing.SplitLine | dispatch.go:97-118 | The line splitter is the specified one, with its tail rule |
| Framing.SplitStderrRecord | stderr.go:588-631 | The loop over continuation lines cuts where the recursive definition over whole lines does |
| StderrLines.IndentedIsTaken | stderr.go:634-645 | Of three lines, ended by LF or by CR LF: the second is taken into the record of the first when it starts with a space or a tab |
| StderrLines.UnlabelledIsTaken | stderr.go:646-654 | So it is when it lacks the prefix, or shows no single word and ':' within the 32 bytes behind it |
| StderrLines.DetailIsTaken | stderr.go:655-657 | With the label DETAIL, HINT, STATEMENT, QUERY or CONTEXT it is taken when such lines are not to be records of their own, and opens a record when they are |
| StderrLines.OtherLabelStops | stderr.go:566-663 | With any other label the record ends before it |
| StderrLines.PlainLineStops | stderr.go:634-650 | So it does before a blank line and, when there is no prefix to look for, before every line that is not indented |
| LineFiles.FileIsRead | dispatch.go:97-118 | The records of a file written line by line are its lines in order, each at its offset and without LF or CR LF; a byte order mark, blank lines and what does not parse are passed over; an unterminated tail is read and flagged just when tails are to be read |
| Stream.Decide | buf.go:109-150 | A splitter run on whatever window the buffer shows decides as on the whole stream, or is undecided only if the whole stream leaves it undecided or more bytes may come |
| ReadBuffer.Buf.Next | buf.go:109-150 | Whatever pieces the reader hands out, with peeks, slides and growth in between: the next token, its true offset, its tail flag and the number of dropped records are those of the scan that sees the whole stream at once; at the end the error is the reader's and all bytes are consumed |
| ReadBuffer.Buf.Fill | buf.go:192-223 | Filling fails only at the end of the stream or on an error, never for lack of room, and keeps what is buffered |
| ReadBuffer.Buf.DiscardToNewline | buf.go:171-183 | Exactly the bytes up to the first newline are dropped, or all when there is none |
| ReadBuffer.Buf.ConsumeBOM | buf.go:89-105 | A byte order mark is dropped once, at the head of the stream only |
| ReadBuffer.Buf.Peek | buf.go:256-267 | The sample is what stands at the current position, of the asked length unless the stream or the limit ends before; no position is lost |
| ReadBuffer.GrowsSeldom | buf.go:226-236 | Over a buffer's whole life, with all resets, g growth steps mean that the initial length doubled g - 1 times is below the maximum, and the length is the initial one doubled g times, capped |
| LineDrops.DropsExactly | buf.go:136-149 | With the line splitter exactly the over-long lines are dropped, each counted once |
| WholeFiles.CutIsWhole | buf.go:109-150 | A decision that fits the buffer is the decision of the splitter on the whole rest of the input |
| WholeFiles.RecordsAreTokens | parser_api.go:19-52 | When every decision fits, the records that the parser reads are those of the splitter run once over the whole input, less the ones that do not parse |
| WholeFiles.ReadRows | parser_api.go:19-52 | A file of printed csvlog rows comes out of the parser row by row, however its bytes arrive |
| WholeFiles.ReadObjects | parser_api.go:19-52 | A file of printed jsonlog objects comes out of the parser object by object, however its bytes arrive |
| Parsing.Parser.Next | parser_api.go:19-52 | The next record is the first of those still to come; every token that does not parse is passed over and counted once, so that the count and the tokens still to come that do not parse add up to the same before and after; at the end the reader's error is kept |
| Parsing.Parser.Seek | seek.go:59-122 | From the start, from the current position or from the end: an unknown origin and a negative offset are refused, an offset past the end is kept and there is nothing to read, and from any other offset the parser stands where resynchronisation on the whole file lands; its state is that of a new parser |
| Parsing.Parser.Resolve | seek.go:102-122 | The absolute offset, or why there is none; the parser is as before if and only if the offset did not count from the end or the reader was already there |
| Parsing.Parser.Resync | seek.go:135-149 | The loop over samples and lines lands where resynchronisation that sees the whole file lands, for any number of lines, when every position it looks at is clear: what it shows does not depend on how much happens to be buffered |
| TextLines.ShownIsClear | seek.go:18-25 | A position is clear, whatever the start test, when the bytes that are sure to be seen there show a whole line with content or all of the rest |
| TextLines.NearLineIsClear | seek.go:20-25 | A whole line with content within the next 8,192 bytes, and within the largest record, is enough for that |
| JsonSeeking.ByteIsClear | seek.go:152-165 | In a jsonlog file it is clear as soon as they show one byte with content, however long its line is |
| Parsing.Parser.ScanShard | parallel.go:208-254 | A shard delivers exactly the records that start before its end, from where a seek to its start leads |
| Seeking.FirstNonEmptyLine | detect.go:39-54 | The loop over a sample finds its first line that is not empty, if that line is complete |
| Seeking.SeekExact | seek.go:135-165 | In every format: a seek to any offset reads exactly the serial records that start there or later if and only if nothing parses that it reads before it meets the serial scan, and no record starts between the offset and there |
| Seeking.PassesItself | seek.go:59-93 | In every format: a record whose first line fails the start test is lost by a seek to its own offset |
| Seeking.SeekReads | seek.go:135-165 | When first lines can be told from the lines inside records, a seek to any offset reads exactly the serial records that start there or later |
| Seeking.SeekResumes | seek.go:59-93 | A seek to a record's own offset resumes at that very record |
| Landing.SeekStands | seek.go:18-149 | After a seek to a line start, or to a place that shows the inside of a record, in a file whose first lines can be told: with at most 1,024 lines up to the next boundary the parser stands there and reads exactly the serial records from the offset on; with more it stands behind the 1,024th line, short of the boundary |
| StderrSeeking.StderrIsMarked | stderr.go:588-664 | In a stderr log first lines can be told from the lines inside records if and only if no continuation line opens the file or follows a blank line or a dropped record, and no record is dropped with another |
| StderrSeeking.RulesMark | stderr.go:634-664 | The same for the rules the parser has: indentation, the prefix and the labels |
| StderrLosses.RestIsLost | stderr.go:588-664 | A log whose over-long record leaves a continuation line that is a record of its own, and that a seek to its offset loses |
| JsonSeeking.JsonSeekExact | seek.go:152-165 | A seek in a jsonlog file reads exactly the records from there on if and only if what the line shows from there on is no object by itself and no indented record is passed over |
| JsonSeeking.PastIsPassed | seek.go:135-149 | Resynchronisation goes past a line exactly when no line from there to it opens with a brace and no more lines than allowed are passed |
| JsonShams.BracesAreSham | json.go:69-113 | Every pair of braces inside a line is taken for a record by a seek to it, whatever stands behind it |
| JsonShams.SeekIsMisled | seek.go:152-165 | A line, and an offset in it, from which a seek reads a record that the file does not hold |
| JsonShams.IndentedIsLost | json.go:69-113 | A file with an indented record that a seek to its offset loses |
| Workers.EveryRunDeliversAll | parallel.go:115-139 | Under every interleaving, once all workers have stopped, what was delivered is exactly what the shards hold, each item once |
| Workers.NoRunInvents | parallel.go:115-139 | At every moment of every interleaving nothing was delivered that the shards do not hold, and nothing twice |
| Workers.FairRunsDeliverAll | parallel.go:115-139 | Every run in which every worker keeps getting its turn stops all workers and delivers everything |
| Parallel.PlanShards | parallel.go:295-331 | The loops plan the specified shards for every source, of known or unknown size |
| Parallel.PlanTiles | parallel.go:295-331 | The shards of a source tile it: from 0 to its end, without a gap or an overlap |
| ShardSizes.ShardsAreEven | parallel.go:256-331 | The ranges of a source are of the same length but for the rest in the last; there are as few as keep them within 256 KiB on average, 8,192 of them from 2 GiB on, none for an empty source and one when its size is not known |
| Parallel.ShardsDeliver | parallel.go:208-254 | The shards of one file deliver, one after the other, the records of the uninterrupted scan, once each and in order |
| Parallel.FragmentIsSafe | parallel.go:208-254 | A cut is safe when the seek to it ends at a boundary, or in a fragment that frames to the end of its record and does not parse, and no record starts before that |
| Parallel.MarkedIsSafe | parallel.go:208-254 | So it is in a file whose first lines can be told from the lines inside records |
| Parallel.JsonIsSafe | parallel.go:208-254 | In a jsonlog file a cut is safe if and only if it shows no object of its own and loses no indented record |
| Parallel.ParallelIsSerial | parallel.go:70-145 | Whatever the workers' parsers may read, every fair interleaving of any number of workers over any files delivers exactly the records of the serial scans, provided that every cut of the plan is safe, which is a condition on that cut alone, and that at every cut the resynchronisation is sure to see whole lines, or in a jsonlog file their first bytes |
| Parallel.NoRunExceedsSerial | parallel.go:115-139 | Under the same two conditions, fair or not, no run delivers a record that the serial scan does not, nor one twice |
| Scanners.Next | template.go:952-993 | The tokenizer's loops find the token of the specified grammar, non-empty and in bounds, in both modes |
| Scanners.ScanNumeric | template.go:1030-1089 | Numbers with sign, fraction, exponent, radix and unit, logical sequence numbers, and the words they turn into |
| TokenForms.RadixIsHidden | template.go:1111-1131 | 0x, 0o and 0b with their digits are one value, in a message and in a statement |
| TokenForms.ScientificIsMasked | template.go:1030-1068 | So is a number with a fraction and a signed exponent |
| TokenForms.LsnIsHidden | template.go:1256-1274 | So are two halves of one to eight hexadecimal digits with a '/' between them, in a message |
| TokenForms.SignBelongs | template.go:1009-1026 | A sign belongs to the number behind it unless an operand stands before it; in a message it does right behind white space |
| Scanners.ScanWordish | template.go:1151-1177 | Words and the literals that a word may prefix |
| TokenForms.StringsAreMasked | template.go:1151-1177 | Strings, plain or with one of the letters e, b, x, n or U& before them, are one value of a statement |
| TokenForms.DottedStays | template.go:1277-1297 | A word with dots and '$' inside is one token and stays in a statement |
| TokenForms.UnicodeNameIsToken | template.go:1151-1177 | U&"..." is a quoted name, in a message and in a statement |
| TokenForms.GuillemetsAreToken | template.go:1131-1149 | A name in guillemets ends with the mirror of the one that opens it |
| Scanners.ScanDollar | template.go:1181-1207 | Parameters, dollar-quoted literals and lone dollars |
| TokenForms.DollarQuotesAreMasked | template.go:1181-1207 | Everything between two equal tags is one value |
| Scanners.ScanBlockComment | template.go:1212-1230 | Nested comments end where the depth comes back to zero |
| TokenForms.LineCommentIsGap | template.go:952-993 | A comment from "--" to the end of its line is a gap |
| Reading.ScanMarker | template.go:475-521 | The statement marker at a place, with its name, is the one of the specified list |
| MarkerTexts.StatementTemplate | template.go:475-521 | On the bytes: behind "statement:" or "fastpath function call:" at its start, the template of a message is these words and what a plain statement's bytes show: values are numbered, and a list of values behind IN, or tuples of them behind VALUES, become "(...)" |
| MarkerTexts.NamedTemplate | template.go:475-521 | The same behind "execute fetch from", "execute", "parse" and "bind" with a name, which is $1 |
| PlainStatements.PlainSql | template.go:376-457 | What look-ahead over the tokens of a plain statement spells is what its bytes show, by a grammar of lists over the bytes |
| MarkerPlaces.BehindValue | template.go:90-96 | A marker, or "plan:", may stand behind a value and white space |
| MarkerPlaces.BehindGluedWord | template.go:90-96 | So it may when a word with a digit at its head is right behind the value |
| MarkerPlaces.BehindPath | template.go:133-140 | So it may behind a path and white space |
| MarkerPlaces.NoneBehindWord | template.go:90-96 | Behind a word that is no value no marker is read |
| MarkerPlaces.NoneBehindKey | template.go:186-205 | Behind the value of a key none is read either |
| MarkerPlaces.NoneWithoutSpace | template.go:157-181 | Nothing is read as a marker without white space before it, but at the start of the message, where "plan:" is none |
| Quoting.PlanIsHidden | template.go:174-181 | Nothing of a query plan behind "plan:" shows in the template |
| Reading.LookInMessage | template.go:133-246 | One look at the message finds the next act of the specified reading and moves on |
| Steps.ReadsByStep | template.go:133-246 | Reading a message is one step after the other: a path, white space, a marker, a key with its value, or a token that becomes a placeholder or stays |
| Quoting.DataIsHidden | template.go:212-219 | On the bytes: under an SQLSTATE 22xxx or 23xxx two messages that differ only in the body of a double-quoted token, which reading comes to before any statement in both, and which is not right behind the word constraint, index or table, have the same template |
| Quoting.NamedIsShown | template.go:212-219 | A quoted name right behind one of these words, in either case, is in the template letter for letter, whatever the SQLSTATE |
| Quoting.NameIsShown | template.go:212-219 | Under any other SQLSTATE a quoted name that no ':' stands before is in the template letter for letter |
| Quoting.PhraseDataIsHidden | template.go:553-577 | Whatever the SQLSTATE, behind "for", words and a ':' the body of a double-quoted token does not show |
| Quoting.ValueIsHidden | template.go:659-700 | Nor does a body that shows a number, a sign, a time, an apostrophe, a '$' or a path |
| Quoting.BodyStarts | template.go:679-700 | Where the body of a quoted token starts, in each of its forms |
| Hidden.StringIsHidden | template.go:1235-1251 | The text of a string in apostrophes does not show in a message |
| Hidden.KeyedValueIsHidden | template.go:186-205 | Nor does the value behind a word and '=', up to white space, ',', ';' or ')' |
| Hidden.NoKeyStep | template.go:186-188 | Behind anything but a word '=' stays, and what follows it is read on |
| TokenForms.PathIsHidden | template.go:582-655 | A path, in each form it may open with, becomes a placeholder whole, up to white space, a quote, or a mark that white space follows |
| TokenForms.NoOtherPath | template.go:582-629 | Nothing else is a path |
| Verbatim.KeptTokenShows | template.go:121-247 | A token that reading keeps, and that no value takes with it, is in the template letter for letter, if nothing was cut |
| PlainTemplates.PlainTemplate | template.go:63-248 | The template of every plain message is spelled from its bytes: words stay, with one space where white space was; numbers with their units, "$1" and the like, and words with a digit behind one of the fourteen id words are numbered from $1; up to 1,024 bytes nothing is cut, and past them the cut decides |
| Masker.AppendTemplate | template.go:63-248 | The template is appended to a buffer of any size: in place when it has 1,100 bytes of room, in a larger one that starts with the same bytes when it has not; the bytes before the base stay |
| Masker.AppendInPlace | template.go:63-248 | The loop writes exactly the specified template in place: at most 1,027 bytes are added, and 1,100 bytes of room are enough for a message of any length |
| Appending.MessageStaysInside | template.go:103-132 | Every place in the buffer that the loop goes back to, for a placeholder or a collapsed list, is within the length the template has had before: no slice goes past the capacity of a buffer that only ever grew |
| Appending.CutInto | template.go:263-319 | The cut works in place and leaves the bytes before the base alone |
| Templates.TemplateMeaning | template.go:376-457 | A template that fits is what look-ahead over the tokens spells: exactly the IN lists and VALUES tuples of literals collapse, and the placeholders count from $1 without a gap |
| ListGrammar.RunMeaning | template.go:376-444 | The list automaton, from any state, writes what the look-ahead grammar says |
| Fusion.WordGoesWithValue | template.go:104-110 | A word or a '$' right before a value goes with it |
| Fusion.OtherStays | template.go:223-229 | Any other token stays before it |
| Fusion.DigitWordGoesWithValue | template.go:220-222 | A word right behind a value goes with it just when a digit is at its head |
| Fusion.KeyIsSpelled | template.go:186-205 | Behind a key stand "=" and one placeholder |
| Fusion.PlanIsSpelled | template.go:174-181 | "plan: " is the end of what is written |
| Limits.FittingIsUnbounded | template.go:122-132 | Cutting back while a list is still open never shows: a draft that ends within the limit is the one written without a limit |
| Templates.TemplateIsShort | template.go:263-295 | Every template is at most 1,027 bytes long and a fixed point of the cut |
| Templates.TemplateIsValid | template.go:63-248 | The template of a valid UTF-8 message is valid UTF-8 |
| Cutting.CutIsWhole | template.go:263-319 | The cut splits neither a character nor a placeholder and leaves a word byte at the end |
| Cutting.CutIsLongest | template.go:263-319 | A longer cut within 1,024 bytes would split a character or a placeholder or end in no word, unless a placeholder ends right there |
| Cutting.CutEndsSo | template.go:263-299 | What is kept is followed by a space if it ends in a placeholder, and by the ellipsis |
| Cutting.CutIsStable | template.go:263-295 | Cutting what was cut changes nothing |
| Invisible.AlikeIsInvisible | template.go:121-247 | Behind the same text up to a statement marker, statements whose tokens, spacing and non-literal texts agree have the same template, whatever their literals and comments hold |
| Invisible.LiteralIsInvisible | template.go:1151-1251 | On the bytes: the text of one literal, plain, prefixed or dollar-quoted, may be exchanged for any other without changing the template |
| Invisible.CommentShowsSign | template.go:1009-1026 | Two comments leave the same trace if and only if no signed number follows, or their last bytes leave the sign to the number alike |
| Invisible.CommentIsInvisible | template.go:952-993 | On the bytes: a comment may be exchanged for another under that condition |
| CommentShows.CommentCanShow | template.go:1009-1026 | Two messages that differ in one byte of a comment, and their different templates |
| CommentShows.TemplateWith | template.go:1009-1026 | The template of such a message for every byte that the comment may hold: the sign stays or goes with the number by that byte alone |
| Leading.StatementDecides | template.go:121-247 | Behind the same text up to the marker, the acts of the statement alone decide the template |
| Gaps.RunSame | template.go:121-247 | White space and comments, in runs of any length, count as one gap each |
| PlainMessages.MaskingIsIdempotent | template.go:133-246 | Masking the template of a plain message (words, numbers with units, id words, placeholders and the marks between them) again changes nothing |
| Idempotence.TameIsIdempotent | template.go:133-246 | The same for every message whose reading keeps words and values set apart |
| Relapse.MaskingAgainCanChange | template.go:475-499 | A message whose template changes when it is masked again |
| RelapseKeys.MaskingKeysAgainCanChange | template.go:197-213 | Another one, with an id before `=` and no literal |
| Csvlog.EscapeCSV | bench/gen/gen.go:315-324 | The loop prints the quoted column: quotes doubled, in quotes |
| Csvlog.SplitFields | csv.go:114-171 | The loop finds exactly the columns of the specified grammar, fails exactly when it does, and stores the first 32 |
| Csvlog.RowSplits | csv.go:114-171 | A printed row splits into exactly its columns, each unquotes to its text, and the flag is set just when some column has a quote |
| CsvFields.OpenRowFails | csv.go:114-171 | A quoted column that does not end makes the record fail |
| CsvFields.JunkIsSkipped | csv.go:114-171 | What stands between a closing quote and the next comma is passed over |
| Csvlog.RowIsFramed | csv.go:62-95 | A printed row is framed as one record whatever stands behind it, with quotes, commas and line breaks in its columns |
| Csvlog.UnquotedDoubled | unquote.go:47-56 | Unquoting undoes the doubling of quotes, for every text |
| Csvlog.AppendUnquoted | unquote.go:47-56 | The loop appends the unquoted text |
| RoundTrips.CsvFileComesBack | csv.go:62-95 | A file of printed rows is framed row by row |
| Unescaping.EscapeResolves | unquote.go:64-127 | The escape of every scalar value, as one unit or as a surrogate pair, resolves to its UTF-8 bytes |
| Escapes.ShortEscapes | unquote.go:71-88 | The eight two-byte escapes and the bytes they stand for |
| Escapes.OthersStay | unquote.go:97-101 | A backslash before any other byte stays, with the byte |
| Escapes.NoDigit | unquote.go:130-150 | The hexadecimal digits, in either case, and no others |
| Escapes.ResolvesAccent | unquote.go:108-127 | An escape of the basic plane, with its digits in either case |
| Escapes.ResolvesPair | unquote.go:108-127 | A surrogate pair is the one character it stands for |
| Unescaping.LoneSurrogate | unquote.go:108-127 | A surrogate that does not start a pair stands for the replacement character |
| Unescaping.UnescapedIsValid | unquote.go:64-104 | Resolving the escapes of valid UTF-8 gives valid UTF-8, broken escapes included |
| Escapes.ValidIsEncoded | unquote.go:64-104 | Valid text is what scalar values encode to, without surrogates and without spellings that are too long |
| Unescaping.AppendUnescaped | unquote.go:64-104 | The loop appends the resolved text, which is no longer than its source |
| Jsonlog.JsonStr | bench/gen/render.go:226-259 | The loop prints a member with its string escaped, and nothing for an empty string |
| Jsonlog.UnescapedEscaped | unquote.go:64-104 | Unescaping undoes the escapes of any byte string |
| Jsonlog.ObjectComesBack | json.go:69-208 | The scanner visits exactly the printed members in order, the escaped flag set just when an escape was written, each value as it was printed |
| Jsonlog.ObjectIsOneLine | bench/gen/render.go:226-259 | A printed object is one line, whatever its strings hold |
| Jsonlog.ScanObject | json.go:69-113 | The scanner's loop visits the members of the specified grammar and fails exactly when there are none |
| JsonSpaces.SpacesAreSkipped | json.go:69-132 | White space anywhere between the parts of an object changes nothing, and neither does what stands behind it |
| JsonSpaces.WordsAreValues | json.go:167-208 | null is an empty value, true and false stand for themselves |
| JsonSpaces.NumbersAreValues | json.go:167-208 | The bytes of numbers are a value as far as they go |
| RoundTrips.JsonFileComesBack | json.go:18-20 | A file of printed objects is framed object by object |
| Numbers.PrintedReadsBack | num.go:22-84 | Every printed integer reads back as itself over the full range of 64 and of 32 bits, and is refused beyond it |
| Numbers.PlusReads | num.go:45-74 | A plus sign changes nothing, and a sign alone is no number |
| Numbers.OnlyDigitsRead | num.go:22-74 | Any other byte in it makes it no number |
| Numbers.ParseUint | num.go:22-40 | The loop reads exactly the digit strings whose value fits 64 bits |
| Numbers.ParseInt | num.go:45-74 | Signed integers are read exactly, the smallest one included |
| Numbers.ParseInt32 | num.go:78-84 | So are those of 32 bits, and no others |
| JsonKeys.KeyIsItself | json.go:257-319 | Every key of a jsonlog object is recognised as itself |
| JsonFields.UserReads | json.go:362-363 | {"user":"..."} with any text, escaped, is read as a record with that user and nothing else |
| JsonFields.DbnameReads | json.go:364-365 | "dbname" is the database |
| JsonFields.PidReads | json.go:366-367 | "pid" with any number is the process if it fits 32 bits |
| JsonFields.HostAndPortRead | json.go:368-443 | "remote_host" and "remote_port" become one field, with a ':' between them |
| JsonFields.SessionIdReads | json.go:372-373 | "session_id" is the session |
| JsonFields.LineNumReads | json.go:374-375 | "line_num" is the line number, "txid" and "query_id" below likewise, if it fits 64 bits |
| JsonFields.PsReads | json.go:376-379 | "ps" is the command tag |
| JsonFields.SessionStartReads | json.go:358-361 | "session_start" is the start of the session, taken as it is |
| JsonFields.TimestampReads | json.go:354-357 | "timestamp" is the time, taken as it is |
| JsonFields.RemoteHostReads | json.go:368-369 | "remote_host" alone is where the connection is from |
| JsonFields.VxidReads | json.go:380-381 | "vxid" is the virtual transaction |
| JsonFields.TxidReads | json.go:382-383 | "txid" is the transaction |
| JsonFields.ErrorSeverityReads | json.go:384-386 | "error_severity" is the severity |
| JsonFields.StateCodeReads | json.go:387-390 | "state_code" is the SQLSTATE if it is five bytes long |
| JsonFields.MessageReads | json.go:391-392 | "message" is the message |
| JsonFields.DetailReads | json.go:393-394 | "detail" is the detail |
| JsonFields.HintReads | json.go:395-396 | "hint" is the hint |
| JsonFields.StatementReads | json.go:403-409 | "statement" is the query |
| JsonFields.ApplicationNameReads | json.go:418-419 | "application_name" is the application |
| JsonFields.BackendTypeReads | json.go:420-421 | "backend_type" is the backend |
| JsonFields.QueryIdReads | json.go:424-425 | "query_id" is the query's number |
| JsonFields.OtherNamesRead | json.go:254-319 | Every other name sets no field of this model |
| JsonFields.FlagIsSet | json.go:338-350 | The record is flagged for unquoting just when a value under one of the fourteen names of texts has an escape |
| JsonFields.LaterWins | json.go:352-426 | Of a name that comes twice the later value counts |
| JsonFields.StateCodeStays | json.go:387-390 | But an SQLSTATE that is not five bytes long replaces none |
| JsonFields.WritesNames | bench/gen/render.go:184-222 | The writer puts the spelled names before the values of an event, in this order, and leaves out what has no value |
| Events.CsvReads | csv.go:187-265 | A csvlog row of every layout says what its event says, whatever its quoted columns hold |
| Events.JsonReads | json.go:332-470 | A jsonlog object says what its event says, whatever its strings hold |
| Events.FormatsAgree | bench/gen/render.go:115-224 | The csvlog row and the jsonlog object of an event say the same |
| Writers.WriteCSV | bench/gen/render.go:115-181 | The sequence of calls that writes events prints, for every layout, exactly their rows |
| Writers.WriteJSON | bench/gen/render.go:184-269 | The sequence of calls that writes events prints exactly their objects, each key in its place and empty ones left out |
| Writers.WrittenRowsComeBack | csv.go:62-265 | A written csvlog file is framed row by row, and each row says what its event says |
| Writers.WrittenObjectsComeBack | json.go:18-208 | A written jsonlog file is framed object by object, and each object says what its event says |
| Readers.ParseCSV | csv.go:187-265 | The parser sets the fields that the columns of the record say, unquoted as the caller sees them, and refuses a record that is too short |
| CsvFields.ColumnsAreFields | csv.go:187-265 | The columns of a row of any layout, by their numbers, are the fields of the record |
| CsvFields.ShortRowFails | csv.go:187-200 | A row is read just when it has 23 columns or more |
| Readers.ParseJSON | json.go:332-470 | The parser, visiting the members in any order and with any key twice, sets the fields that the object says |
| Following.TurnKeeps | pgremote/open.go:152-382 | Every turn of the follower, with whatever the server has appended, keeps the protocol's invariant: of each file exactly a stretch was delivered, in order and once, and the recorded offset is where delivery has come to |
| Following.EveryRunIsExact | pgremote/open.go:152-382 | After any run, of every file exactly the stretch from its initial offset was delivered |
| Following.DeliversLines | pgremote/open.go:228-257 | A delivery ends with a line, unless the caller's room splits it or a line is two chunks long |
| Holding.DeliversWholeLines | pgremote/open.go:228-257 | A turn delivers what is pending up to its last newline, as far as the caller's room reaches |
| Holding.ReleasesLongLine | pgremote/open.go:228-264 | Without a newline it delivers nothing below two chunks, and from there on all that the caller has room for |
| Holding.NeverHoldsTwoChunks | pgremote/open.go:228-264 | A turn that finds two chunks pending always delivers: whole lines, or as much as the caller has room for |
| Holding.EveryRunHoldsLittle | pgremote/open.go:152-310 | However long the lines are, fewer than three chunks are pending after every turn of every run |
| Holding.TakesUp | pgremote/open.go:351-382 | The next file is the first that is not unchanged, read from its recorded offset, or from its head when it has none or is shorter than that |
| Holding.ShortChunkEndsFile | pgremote/open.go:276-337 | A chunk shorter than asked for ends the file for now; its last partial line is given back |
| Holding.RecordForgets | pgremote/conn.go:140-145 | From 2,500 paths on, recording one more offset forgets all others |
| Following.WaitsWithoutLines | pgremote/open.go:193-219 | When the follower waits, every line that was complete at the last listing has been delivered |
| Following.EveryLineArrives | pgremote/open.go:152-382 | From any reachable state, once the server stops writing, finitely many turns deliver every complete line of every file |
| RemoteReader.Follower.Turn | pgremote/open.go:152-190 | The object's steps are those of the protocol |
| RemoteReader.Follower.Drain | pgremote/open.go:228-257 | Delivering moves the bytes out of what is held and records the offset; with two chunks held it always delivers, and only a partial line below that is kept back |
| RemoteReader.Follower.Record | pgremote/conn.go:140-145 | The in-memory offset store forgets everything before it would hold more than its limit |
| OffsetStore.ForgetsUsedLongestAgo | offsets.go:61-85 | An offset is forgotten exactly when as many other paths as there is room for were used since it was last used; until then it is what was recorded last |
| OffsetStore.StoreForgets | offsets.go:61-85 | The same of the store that is updated in place, whatever it held before |
| OffsetStore.RoomForgetsNothing | offsets.go:70-85 | A store with room for all paths forgets nothing |
| OffsetStore.Store.Set | offsets.go:70-85 | The list and the map, updated in place, hold the recorded offset in front and lose no more than the path used longest ago |
| OffsetStore.Store.Get | offsets.go:61-68 | The recorded offset, which becomes the one used last |
| FileSets.TurnKeeps | fileset_open.go:78-222 | Every turn of a pass, with whatever was appended, keeps the invariant: of each file exactly its head was delivered, in order and once, and the recorded offset is where delivery has come to, and what is held |
| FileSets.EveryPassIsExact | fileset_open.go:78-222 | Over any number of passes, finished or given up while a file was open, of every file exactly its head was delivered; a finished pass has delivered all that the files held when it began |
| FileSets.EveryPassEnds | fileset_open.go:78-222 | From any reachable state, while nothing is appended, finitely many turns finish the pass |
| LocalHolding.DeliversWholeLines | fileset_open.go:113-132 | A turn delivers what is pending up to its last newline, as far as the caller's room reaches |
| LocalHolding.DeliversRest | fileset_open.go:113-132 | A line that does not end is delivered when its file was closed, and not before |
| LocalHolding.ReadsScratch | fileset_open.go:135-160 | One read takes what it is given, at most 32,768 bytes; at the end of the file it closes it |
| LocalHolding.TakesUp | fileset_open.go:165-222 | A listed file is opened at its recorded offset, or at its head when it is shorter than that, unless it is unchanged, gone, or was closed in this pass |
| FileSets.GivingUpLosesTheRest | fileset_open.go:262-274 | A pass may be given up without loss if and only if nothing of a closed file is held |
| FileSets.RestIsSkipped | fileset_open.go:262-274 | Otherwise the next pass goes on behind exactly what was held |
| FileSets.RestIsNeverDelivered | fileset_open.go:262-274 | A file, and two turns after which its bytes are held; the next pass ends without delivering them |
| LocalReader.OneShot.Turn | fileset_open.go:78-106 | The object's steps, with its store, are those of the passes |
| LocalReader.OneShot.OpenNext | fileset_open.go:165-222 | The loop over the listed files opens the one that the specification opens |

## Left out

- Borrowed slices: a record is a value here, so that a record is only valid until the next call is not modelled.
- The line prefix of stderr logs (compiling, scanning and detecting it): whether a line has the prefix is a parameter of the rules.
- Detecting the format of a log, and the fields of a stderr record: the framer is given.
- A source that cannot seek.
- Callback errors and cancelled contexts in the parallel scan: the runs are those without them.
- Seeking.SeekReads: for csvlog, that the start test tells first lines from others is a hypothesis; it is about the time stamps in the columns, which are not modelled.
- Following.EveryRunIsExact: fewer than 2,500 paths, the limit of the in-memory offset store, above which it forgets; an offset store of the caller's own is not modelled.
- Following.EveryLineArrives: files only grow; truncated or replaced files, the one-shot mode and buffers of no length are not modelled.
- Events.FormatsAgree: time stamps and severities are opaque texts.
- Readers.ParseCSV: the columns that the writers leave empty (internal query, context, positions, location, leader) and the flags of a record other than the one for unquoting are not read; nor are they by Readers.ParseJSON.
- Masker.AppendTemplate: a buffer with less room is replaced before the template is written, not when it is full, so whether a short template stays in it is not modelled.
- Invisible.CommentShowsSign: it is about what is read; that different readings give different templates is stated for the messages of CommentShows.TemplateWith, as in general the difference may be past the limit.
- PlainMessages.MaskingIsIdempotent: templates that are cut are left out, as the cut can leave the head of a word.
- FileSets.EveryPassIsExact: no more files than the store has room for, and files only grow; replaced, truncated and vanished files, and follow mode, are not modelled.
- Pattern identifiers (a hash of the template), durations, locale and time zone tables, statistics over templates, compression and the command line.
