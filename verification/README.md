# OneProxy: verified models of its hard parts

A Dafny 4.11 project that models five components of the proxy and proves what they promise.

1. **The transcoder** of `conf/convertutf.c`: the six buffer-to-buffer loops, their tables, and the size
   functions in `conf/simpleini.h` that rely on them. `Unicode` states Tables 3-5, 3-6 and 3-7 of section 3.9 of
   the Unicode Standard (which RFC 3629 sections 3 and 4 and RFC 2781 sections 2.1 and 2.2 share); `Conversion`
   says what it means to run a converter step by step in limited room; the methods of `ConvertUtf` are the loops
   over arrays, each proved equal to such a run; `ConvertUtfTheorems` holds the round trips, the compositions and
   the laws of resumption, for all inputs, all flags and all amounts of room.
2. **The INI parser and printer** of `conf/simpleini.h`. `IniText` says what the parser makes of a NUL-terminated
   buffer that it rewrites as it goes; `SimpleIniParser` holds the in-place methods, proved to do exactly that;
   `SimpleIni.Ini` is the class with its maps, proved to keep the contents that `IniStore` describes;
   `IniLines`, `IniComments` and `IniRoundTrip` prove that what is printed, comments included, is loaded back. A first
   load keeps pointers into a buffer that it goes on rewriting: `IniPointers` and `IniFinal` say when what they point to
   is still the same when loading is over, and `IniKept` what the class then shows.
3. **The SQL token parser** of `sql/sqlparser.cpp`. `SqlParser.Parser` is the class with its mutual recursion, its
   brace-depth searches and its range bookkeeping; `SqlQueries` and `SqlTables` say what it records;
   `SqlTheorems` and `SqlTables` hold what is true of the records for every list of tokens, `SqlReach` when a query is
   recorded twice, and `SqlNames` inputs and conditions for names reported that the statement does not mean, and for one
   that it means and that is not reported.
4. **The relay** of `clientthread.cpp`, `networksocket.cpp` and `iomultiplex/ioev.cpp`. `Relay` has the buffers, the
   sockets and the event handlers; `RelayModel` has the two sides as values, and the invariant over every run of
   events and every way in which the kernel answers.
5. **Resource managers**: the connection pool (`PoolModel`, `Pool`), the release of a connection's sockets (`Pool`),
   the handle manager (`Handles`), and marking and filling SQL parameters (`SqlParams`).

Methods stand for the loops and state changes of the original and are proved against functions; the lemmas are about
those functions. Every lemma carries `{:induction false}`, so that its body is the whole of its proof.

## What was found

- `isLegalUTF8` has no lower bound on the second byte behind ED and F4. It accepts Table 3-7 and the sequences with
  a second byte below 0x80 there. The bytes that come back from UTF-8 through UTF-32 are the same exactly if they
  were well-formed (`RoundTrip8Via32`); `SlippedSequence` shows one that is not.
- What a converter has written is the conversion of what it consumed (`ConsumedPrefix8`, `ConsumedPrefix32`), out of
  UTF-16 unless that ends in a high surrogate it let pass (`ConsumedPrefix16`; `HighPassed` shows such an input).
- Repeated calls with little room write what one call writes (`Resumption`). The last of them returns what one call
  returns (`LastResultElsewhere`), except from UTF-32 to UTF-8 and strictly to UTF-16: it does not exactly if no
  surrogate stops the conversion (leniently none does), and a value above 0x10FFFF stands in front of where the last
  call starts, and none behind (`LastResult32`; `ResumptionForgets` shows such an input).
- Multi-line text whose first line is its end tag is not empty: the value runs on from the tag to the next NUL
  (`IniPointers.TagFirst`), and may change while the rest of the buffer is parsed (`IniPointers.ValueIsNotFinal`). A
  value is final exactly if it is not such a text, or no line behind it opens a section or sets a key and a comment
  there, if any, goes on to the end of the data and reads just as it stands (`IniFinal.ValueIsFinal`). So a first load
  shows what the text holds if all its values are final (`IniKept.PointersRead`, `SimpleIni.Ini.LoadData`). All other
  strings handed out are final (`NamesAreFinal`, `FileCommentIsFinal`).
- A query is recorded twice exactly if some SELECT that the parser gets to has its first UNION before its FROM, another
  SELECT behind that UNION, and a query in braces between there and the end of its FROM range (`SqlReach.NoneTwice`):
  that query belongs to both (`SharedTwice`), whether it stands in the FROM range or in the list in front of it
  (`RecordedTwice`).
- Whether CREATE, ALTER and DROP take a qualified name is read off the very first token, which never is a dot there: the
  name is right exactly if it has no schema (`SqlNames.CreateIsRight`), else the schema is reported as the table
  (`SchemaReported`).
- In a list of names separated by commas, a first name of more than five tokens with a comma behind it is dropped, and
  so is every later one of five or more behind the first that is kept. All are reported exactly if there is one only, or
  the first has at most five tokens and the others less than five (`SqlTables.ListFound`, `CommaListFound`;
  `SqlNames.NameDropped` shows an input).
- What stands behind ON or USING is reported as a table exactly if a comma ends it within five tokens and it reads like
  a name (`SqlNames.ConditionReported`): of `FROM a JOIN b ON a . f , c` the column `f` is (`ColumnReported`).
- In UPDATE the fallback that starts the table name at token 2 is never taken (`SqlQueries.NameFound`).
- Of `database.user.name`, and only there, the name itself need not be a literal (`SqlNames.ThirdPartIsAny`): a keyword
  is reported as a table (`KeywordReported`).
- A parameter whose name is at the very beginning of a statement counts as not found, and is not filled
  (`SqlParams.MarkedIsSet`, `FirstIsLeft`).
- Filling parameters from the last to the first is right for all values exactly if their places are in index order
  (`SqlParams.OrderMatters`; `OrderIsNeeded` shows an input). No value leads to a position behind the end of the text
  exactly if every range is inside what empty values leave (`InRangeExactly`); `CrossedMisfit` shows an input where one
  does.
- The ranges marked for names that are a colon and something without colons overlap exactly if two of them start at the
  same place (`MarkedDisjoint`), which takes a name that begins another (`TogetherBegins`, `MarkedTogether`).
- What Save prints is loaded back just as it is, unless a file without a comment takes that of its first section
  (`IniRoundTrip.RoundTrip`).
- While bytes wait for one side, neither side is read (`RelayModel.Balanced`).
- When handles are removed by their cursor, all their ids are freed exactly if none of them is a prepared statement; the
  id of a prepared statement stays flagged (`RemoveBaseCursorFrees`; `StatementLeaks` shows an input). Removal by one id
  keeps the ids of live handles flagged exactly if no other live handle has it (`RemoveKeeps`; `SharedIdFreed`), and
  removal by a cursor exactly if no other has that as the id of its statement (`RemoveBaseCursorKeeps`;
  `StatementFreed`).

## Model

| member | source | states |
|---|---|---|
| Unicode.Encode8WellFormed | conf/convertutf.c:409-458 | the bytes of a scalar value are one row of Table 3-7, and Table 3-6 reads it back from them |
| Unicode.Decode8Scalar | conf/convertutf.c:462-520 | a well-formed sequence has a scalar value, whose bytes are the sequence |
| Unicode.Decode16Text | conf/convertutf.c:110-163 | every well-formed UTF-16 text is the text of some scalar values |
| Unicode.Decode8Text | conf/convertutf.c:462-520 | every sequence of well-formed UTF-8 sequences is the text of some scalar values |
| ConvertUtfSteps.TotalDecodes | conf/convertutf.c:362-371 | adding up bytes shifted by six bits and taking the offset away is the bit distribution of Table 3-6 |
| ConvertUtfSteps.AcceptedScalar | conf/convertutf.c:370-391 | what is accepted never decodes to a surrogate or beyond 0x10FFFF, so that strict and lenient modes agree on UTF-8 |
| ConvertUtf.IsLegalUTF8 | conf/convertutf.c:295-318 | accepts exactly Table 3-7 and its ED and F4 rows with a second byte below 0x80 |
| ConvertUtf.IsLegalUTF8Sequence | conf/convertutf.c:326-332 | the same for the sequence that the lead byte announces, if it is all there |
| ConvertUtf.ConvertUTF32toUTF16 | conf/convertutf.c:61-106 | advances both pointers and returns the result of the run; writes just its units, inside the target |
| ConvertUtf.ConvertUTF16toUTF32 | conf/convertutf.c:110-163 | the same for UTF-16 to UTF-32, with the source backed up on overflow |
| ConvertUtf.ConvertUTF16toUTF8 | conf/convertutf.c:214-280 | the same for UTF-16 to UTF-8, with bytes written back to front |
| ConvertUtf.ConvertUTF8toUTF16 | conf/convertutf.c:336-405 | the same for UTF-8 to UTF-16 |
| ConvertUtf.ConvertUTF32toUTF8 | conf/convertutf.c:409-458 | the same for UTF-32 to UTF-8 |
| ConvertUtf.ConvertUTF8toUTF32 | conf/convertutf.c:462-520 | the same for UTF-8 to UTF-32 |
| ConvertUtf.WriteBytes | conf/convertutf.c:447-454 | the fall-through switch writes the bytes of Table 3-6 |
| ConvertUtf.PutPair | conf/convertutf.c:93-101 | the high and the low unit are written behind what is written already |
| ConvertUtf.ReadBytes | conf/convertutf.c:481-489 | the fall-through switch adds up one sequence and stands behind it |
| ConvertUtf.ReadUnits | conf/convertutf.c:226-254 | reads one code point of UTF-16, and stays in front of units that are illegal or not all there |
| ConvertUtf.ReadSequence | conf/convertutf.c:343-364 | reads one code point of UTF-8, and stays in front of a sequence that is illegal or not all there |
| ConvertUtfTheorems.RoundTrip32Via8 | conf/convertutf.c:409-520 | UTF-32 to UTF-8 and back is the identity on scalar values, under any flags |
| ConvertUtfTheorems.RoundTrip32Via16 | conf/convertutf.c:61-163 | UTF-32 to UTF-16 and back is the identity on scalar values |
| ConvertUtfTheorems.RoundTrip16Via8 | conf/convertutf.c:214-405 | UTF-16 to UTF-8 and back is the identity on well-formed UTF-16; three bytes for each unit are room enough |
| ConvertUtfTheorems.RoundTrip8Via32 | conf/convertutf.c:295-520 | accepted bytes come back from UTF-32 the same exactly if they are well-formed |
| ConvertUtfTheorems.SlippedSequence | conf/convertutf.c:303-312 | ED 41 80 is accepted, and comes back as another sequence |
| ConvertUtfTheorems.Composition8To16 | conf/convertutf.c:336-520 | for every byte array, UTF-8 to UTF-16 is UTF-8 to UTF-32 and on: the same units, consumed prefix and result |
| ConvertUtfTheorems.Composition16To8 | conf/convertutf.c:110-280 | strict UTF-16 to UTF-8 is UTF-16 to UTF-32 and on |
| ConvertUtfTheorems.ConsumedPrefix8 | conf/convertutf.c:336-520 | out of UTF-8, what is written is the conversion of exactly what is consumed |
| ConvertUtfTheorems.ConsumedPrefix32 | conf/convertutf.c:61-458 | the same out of UTF-32 |
| ConvertUtfTheorems.ConsumedPrefix16 | conf/convertutf.c:110-280 | out of UTF-16, to UTF-8 and to UTF-32, exactly if the consumed part does not end in a high surrogate that was let pass |
| ConvertUtfTheorems.HighPassed | conf/convertutf.c:214-280 | an input on which the consumed part has another result on its own, as it ends in such a surrogate |
| ConvertUtfTheorems.Resumption | conf/convertutf.c:61-520 | calls repeated from the returned pointers, with any amounts of room, write together what one call writes |
| ConvertUtfTheorems.LastResult32 | conf/convertutf.c:61-458 | from UTF-32 to UTF-8, and strictly to UTF-16, the last call returns what one call returns, exactly unless no surrogate stops the conversion, and a value above 0x10FFFF stands in front of where the last call starts and none behind |
| ConvertUtfTheorems.LastResultElsewhere | conf/convertutf.c:61-520 | the other converters always return in the end what one call returns |
| ConvertUtfTheorems.ResumptionForgets | conf/convertutf.c:437-440 | an input on which the last call returns OK where one call says the source is illegal |
| ConvertUtfTheorems.Bounds | conf/convertutf.c:61-520 | one unit of room for each byte, or four bytes for each code point, and so on, is always enough |
| SiConvertW.DecodingFits | conf/simpleini.h:2918-2946 | decoding n bytes into n units never exhausts the target |
| SiConvertW.EncodingFits16 | conf/simpleini.h:2998-3039 | encoding u units and the NUL into 6u+1 bytes never exhausts the target |
| SiConvertW.EncodingFits32 | conf/simpleini.h:2998-3039 | the same for UTF-32 |
| SiConvertW.SizeFromStore | conf/simpleini.h:2881-2904 | the size it returns is enough for every input of that length |
| SiConvertW.SizeToStore16 | conf/simpleini.h:2965-2985 | the size it returns is enough for the UTF-16 string it measures with its NUL |
| SiConvertW.SizeToStore32 | conf/simpleini.h:2965-2985 | the same for UTF-32 |
| SiConvertW.ConvertFromStore16 | conf/simpleini.h:2918-2946 | succeeds exactly on input that the converter consumes, and the output is its conversion |
| SiConvertW.ConvertFromStore32 | conf/simpleini.h:2918-2946 | the same for UTF-32 |
| SiConvertW.ConvertToStore16 | conf/simpleini.h:2998-3039 | converts up to and with the NUL |
| SiConvertW.ConvertToStore32 | conf/simpleini.h:2998-3039 | the same for UTF-32 |
| NoCase.IsLess | conf/simpleini.h:2709-2718 | compares the two strings, folded, in the order of character strings |
| NoCase.BeforeTransitive | conf/simpleini.h:2709-2718 | that order is transitive, as the maps need |
| NoCase.SameEntry | conf/simpleini.h:2705-2719 | two names that neither precede each other are those that fold alike |
| SimpleIniParser.RemoveTrailing | conf/simpleini.h:1580-1586 | a NUL behind the last character that is no space, and nothing else, is written |
| SimpleIniParser.LookAhead | conf/simpleini.h:1759-1769 | counts the newlines of the blank lines ahead, CR LF as one, and stands behind them |
| SimpleIniParser.MoveLine | conf/simpleini.h:1788-1797 | the line is moved down, overlapping or not, and ended by a NUL in both places |
| SimpleIniParser.LoadMultiLineText | conf/simpleini.h:1725-1845 | lines compacted in place and joined by single newlines, up to the tag in any case, the last comment line, or the end; the write cursor never passes the read cursor |
| SimpleIniParser.FindEntry | conf/simpleini.h:1533-1662 | finds what the buffer holds next, and leaves the buffer as IniText says, for every buffer |
| SimpleIniParser.ReadSection | conf/simpleini.h:1561-1599 | a section line, trimmed; without its bracket it is passed over, but its start stays behind |
| SimpleIniParser.ReadValue | conf/simpleini.h:1626-1657 | a trimmed value, or the multi-line text that it opens |
| IniNewLines.NewLinesAlike | conf/simpleini.h:1779-1824 | CR, LF and CR LF, mixed in any way, give the same multi-line value |
| IniNewLines.CommentsAlike | conf/simpleini.h:1744-1824 | and the same comment, with the blank lines in it |
| SimpleIni.Ini.AddEntry | conf/simpleini.h:1876-1977 | without multi-key mode, where forced replacement is the same: the contents are the old ones with the entry added or its value replaced, names compared without case; says whether it was new |
| SimpleIni.Ini.SetValue | conf/simpleini.h:966-975 | what is shown is what was shown with the value added or replaced, whatever is shown through pointers |
| SimpleIni.Ini.LoadData | conf/simpleini.h:1412-1484 | a first load keeps its buffer as parsing left it, with pointers to the values, a later one copies them; what is then shown is what loading the text adds to what was shown, in a first load if all values are final |
| SimpleIni.Ini.FindFileComment | conf/simpleini.h:1506-1529 | the comment at the start of the text, copied or pointed to, if there is none yet |
| SimpleIni.Ini.GetValue | conf/simpleini.h:1981-2014 | the value shown of the key in the section, found without case, or the default |
| SimpleIni.Ini.Save | conf/simpleini.h:2398-2521 | prints the file comment and the contents shown, in load order |
| SimpleIni.OutputMultiLineText | conf/simpleini.h:2525-2550 | every line, each ended by a newline; nothing for the empty text |
| SimpleIni.TestMultiLineData | conf/simpleini.h:1679-1712 | true exactly for values that start or end with a space or hold a newline |
| SimpleIni.LoadOrder | conf/simpleini.h:339-346 | in whatever order the map gives its items, sorted they are in the order in which they were added |
| SimpleIni.GetAllSections | conf/simpleini.h:2297-2306 | sorted, it lists the sections in load order |
| SimpleIni.GetAllKeys | conf/simpleini.h:2310-2338 | sorted, it lists the keys in load order |
| SimpleIni.DataDistinct | conf/simpleini.h:349-353 | no section and no key is ever held twice, case aside |
| IniRoundTrip.RoundTrip | conf/simpleini.h:2398-2521 | loading what Save prints gives the same comments, sections, keys and values in the same order, multi-line values and signature included, exactly unless the file has no comment and its first section has one; and all values are final, so that a first load shows them |
| IniRoundTrip.RoundTripKept | conf/simpleini.h:1459-1481 | read through the buffer when loading is over, the pointers kept by that load show the file comment and the sections printed |
| IniLines.TaggedIs | conf/simpleini.h:2495-2509 | loading multi-line text inverts printing it, for text without CR in which no line is the tag |
| IniComments.CommentIs | conf/simpleini.h:1725-1845 | comment lines, with blank lines between them or without, are read back from where they were printed |
| IniComments.LoadCommentIs | conf/simpleini.h:1725-1845 | so loading them only puts a NUL in the place of their last newline |
| IniRoundTrip.EntryFound | conf/simpleini.h:1600-1657 | a printed comment, key and value are found again, and nothing behind them is touched |
| IniRoundTrip.HeaderFound | conf/simpleini.h:1561-1599 | a printed comment and section line are found again |
| IniPointers.NamesAreFinal | conf/simpleini.h:1468-1481 | section, key and comment of an entry are still the same in the buffer when loading is over |
| IniPointers.ValueSettles | conf/simpleini.h:1626-1657 | a value ends before what is still to be parsed, exactly unless it is empty multi-line text with more behind it |
| IniFinal.ValueIsFinal | conf/simpleini.h:1459-1482 | the value a key is added with is the one its pointer shows when loading is over, exactly unless it is such a text and loading changes the rest of the data; a condition on the text |
| IniFinal.QuietExactly | conf/simpleini.h:1533-1662 | loading leaves the rest of the data as it is exactly if no line opens a section or sets a key, and a comment goes on to the end and reads just as it stands |
| IniFinal.EntryWithin | conf/simpleini.h:1533-1662 | a search ends before any NUL, and changes nothing from where the next one starts |
| IniKept.PointersRead | conf/simpleini.h:1459-1481 | if all values are final, the sections that the kept pointers show at the end are those of a load that copies each value as it is found |
| IniKept.AllFinalExactly | conf/simpleini.h:1459-1482 | every value of a load stays what it was when it was found, exactly under that condition on the text |
| IniKept.FileCommentIsFinal | conf/simpleini.h:1506-1529 | the comment of the file is the same when loading is over |
| IniPointers.TagFirst | conf/simpleini.h:1801-1836 | multi-line text whose first line is the tag has no end of its own |
| IniPointers.ValueIsNotFinal | conf/simpleini.h:1801-1836 | an input whose value is one string when it is added, and another when loading is over |
| IniPointers.EntrySettles | conf/simpleini.h:1533-1662 | parsing an entry changes nothing in front of where it started |
| SqlTokens.FirstIs | sql/sqlparser.cpp:1199-1243 | the search result is the least position at depth zero with one of the ids, and nothing else is |
| SqlTokens.FirstGoesOn | sql/sqlparser.cpp:1199-1243 | a search started again at depth zero, before the first hit, finds that hit |
| SqlTokens.SearchesAgree | sql/sqlparser.cpp:1199-1243 | the two searches agree on one id that is no brace; a brace is only found by the first |
| SqlParser.Parser.FindToken | sql/sqlparser.cpp:1199-1220 | the least position at depth zero with the id, or the end |
| SqlParser.Parser.FindTokens | sql/sqlparser.cpp:1222-1243 | the least position at depth zero with one of the ids, or the end |
| SqlParser.Parser.GetSqlFrom | sql/sqlparser.cpp:1245-1259 | the range behind FROM, to the clause that ends it |
| SqlParser.Parser.GetSqlWhere | sql/sqlparser.cpp:1261-1289 | the range behind WHERE, and whether the query counts as big |
| SqlParser.Parser.HandleSubQuery | sql/sqlparser.cpp:1291-1321 | records the queries in the outermost braces of the range, for balanced braces and others |
| SqlParser.Parser.HandleBraces | sql/sqlparser.cpp:1309-1318 | peels matching braces until a SELECT comes up; stops when the ends cross |
| SqlParser.Parser.ParseSubQuery | sql/sqlparser.cpp:807-1119 | terminates on every range, reads at most one place behind the tokens, and records exactly the queries of the range, with both flags |
| SqlParser.Parser.ParseSelect | sql/sqlparser.cpp:820-858 | the query, then those behind UNION, in the list, in FROM and in WHERE |
| SqlParser.Parser.ParseUpdate | sql/sqlparser.cpp:859-896 | the query, then those in its two ranges |
| SqlParser.Parser.ParseDelete | sql/sqlparser.cpp:897-923 | the query, then those in its condition |
| SqlParser.Parser.ParseInsert | sql/sqlparser.cpp:924-986 | the query, then those of the SELECT that takes the place of a list of values |
| SqlParser.Parser.ParseBlocks | sql/sqlparser.cpp:1086-1103 | the statements between semicolons, but for the first |
| SqlParser.Parser.ParseOther | sql/sqlparser.cpp:987-1116 | at most one query, at the place of the table name |
| SqlParser.Parser.ParseSimpleTableNameAndAlias | sql/sqlparser.cpp:711-805 | adds a table exactly if the tokens are a name with up to two qualifiers and an alias, and then that one |
| SqlParser.Parser.ParseTableNameAndAlias | sql/sqlparser.cpp:635-709 | adds the tables of a list with commas and joins, and terminates |
| SqlParser.Parser.ParseQueryTable | sql/sqlparser.cpp:1121-1197 | adds the tables of the query, by its kind |
| SqlParser.Parser.Parse | sql/sqlparser.cpp:435-454 | for every list of tokens, the queries, the tables and the flags are those of the tokens |
| SqlParser.EveryTableIsItsToken | sql/sqlparser.cpp:1323-1344 | every table reported is the text of the token at its position, inside the FROM range of a query recorded |
| SqlTheorems.QueriesGood | sql/sqlparser.cpp:807-1119 | every query recorded is made of tokens of the range, and they start at different tokens exactly if none shares a query behind a UNION |
| SqlTheorems.FromInRange | sql/sqlparser.cpp:820-836 | tbegin < fromstart <= fromend <= number of tokens; fromend <= tend exactly if the FROM comes before any UNION |
| SqlReach.QueriesReached | sql/sqlparser.cpp:807-1119 | the queries recorded are what is found in the ranges the parser gets to, in that order |
| SqlReach.NoneTwice | sql/sqlparser.cpp:807-1119 | no query is recorded twice, exactly if no SELECT the parser gets to has a UNION before its FROM with another SELECT behind it and a query in braces from there to the end of the FROM range |
| SqlReach.SharedTwice | sql/sqlparser.cpp:820-858 | every query in braces there is recorded for both SELECTs |
| SqlReach.RecordedTwice | sql/sqlparser.cpp:820-858 | two inputs on which it happens, with the query in the FROM range, and in the list in front of it |
| SqlTheorems.NestedSplits | sql/sqlparser.cpp:1291-1321 | searching a range is searching its two parts, cut anywhere at depth zero |
| SqlTheorems.SubqueryRecorded | sql/sqlparser.cpp:1291-1321 | a SELECT with a FROM behind an outermost brace of a range is recorded, to the closing brace |
| SqlTheorems.AllBracesSearched | sql/sqlparser.cpp:1291-1321 | nothing in outermost braces of a range is left out |
| SqlTheorems.CreateTakesOneToken | sql/sqlparser.cpp:987-1013 | the name of CREATE, ALTER and DROP is always one token |
| SqlNames.CreateReports | sql/sqlparser.cpp:980-1013 | the table reported for them is the first token of the name, if it is a literal |
| SqlNames.CreateIsRight | sql/sqlparser.cpp:980-1013 | their range is that of the name, as DESCRIBE takes it, exactly if the name has no schema |
| SqlNames.SchemaReported | sql/sqlparser.cpp:980-1013 | of CREATE TABLE s.t the table reported is s |
| SqlNames.ThirdPartIsAny | sql/sqlparser.cpp:774-803 | a token that is no literal is taken for a name exactly behind a database and a user |
| SqlNames.KeywordReported | sql/sqlparser.cpp:774-803 | of DELETE FROM d.u.SELECT the table reported is the keyword |
| SqlNames.NameDropped | sql/sqlparser.cpp:663-706 | of SELECT FROM t , s . u AS x the table u is not reported, though its tokens are a name with an alias |
| SqlNames.ConditionReported | sql/sqlparser.cpp:663-706 | what stands behind ON or USING is reported as a table exactly if a comma ends it within five tokens and it reads like a name |
| SqlNames.ColumnReported | sql/sqlparser.cpp:663-706 | of SELECT FROM a JOIN b ON a . f , c the column f is reported |
| SqlQueries.NameFound | sql/sqlparser.cpp:874-879 | the table name of an UPDATE is always found, so the fallback is dead |
| SqlTables.NamesOne | sql/sqlparser.cpp:711-805 | tokens name at most one table, with one alias |
| SqlTables.ListedInOrder | sql/sqlparser.cpp:635-709 | tables are found in the order of their positions, inside the range, none twice |
| SqlTables.JoinedInOrder | sql/sqlparser.cpp:663-706 | the same behind the first table |
| SqlTables.ListFound | sql/sqlparser.cpp:635-709 | of a list of names with schema, database and alias, separated by commas: leading ones of more than five tokens are dropped unless last, and behind the first one kept those of less than five are kept |
| SqlTables.CommaListFound | sql/sqlparser.cpp:635-709 | every name of such a list is found exactly if there is only one, or the first has at most five tokens and every later one less than five |
| SqlTables.TableIsItsToken | sql/sqlparser.cpp:1323-1344 | name, alias and position agree with the tokens |
| Relay.NetworkSocket.WriteNosslData | networksocket.cpp:430-461 | sends until all is taken or the kernel stops; the offset stands behind what was taken |
| Relay.NetworkSocket.SaveData | networksocket.cpp:478-484 | keeps what is left to send and adds what is left of the other buffer |
| Relay.NetworkSocket.ReadNosslData | networksocket.cpp:332-358 | appends what arrived |
| Relay.StringBuf.Erase | util/stringbuf.cpp:210-224 | removes the bytes of the range, as far as they exist |
| Relay.ClientThread.AddIoEvent | iomultiplex/ioev.cpp:70-102 | replaces whatever the socket was registered for |
| Relay.ClientThread.DelIoEvent | iomultiplex/ioev.cpp:136-152 | the socket is registered for nothing |
| Relay.ClientThread.WriteTo | clientthread.cpp:499-586 | what was kept goes first, then what was read; the rest is kept, and both registrations follow |
| Relay.ClientThread.SendData | clientthread.cpp:438-497 | everything that waits in either direction is written |
| Relay.ClientThread.HandleReadFrontData | clientthread.cpp:119-174 | what is read from the client goes on to the server; after an error, or when the client is gone with nothing left unread, the connection ends |
| Relay.ClientThread.HandleReadBackendData | clientthread.cpp:370-424 | what is read from the server goes on to the client |
| Relay.ClientThread.Handle | clientthread.cpp:643-679 | every event keeps the invariant of the relay |
| RelayModel.Send | networksocket.cpp:430-461 | what is taken and what is left are the data, and done means that nothing is left |
| RelayModel.WriteFlows | clientthread.cpp:499-586 | writing keeps the order of bytes and leaves the other direction alone |
| RelayModel.WriteBalances | clientthread.cpp:542-583 | after writing nothing waits and both sides are read, or bytes wait and the source is not read |
| RelayModel.NextKeeps | clientthread.cpp:643-679 | FIFO, lossless and balanced after one more event |
| RelayModel.RunKeeps | clientthread.cpp:499-586 | over every run, for each direction: bytes taken, kept and unread together are the bytes read, in order; and the registrations are balanced |
| RelayModel.NothingWaits | clientthread.cpp:542-583 | while both sides are read, each has taken exactly what the other gave |
| RelayModel.Resumes | clientthread.cpp:542-583 | once the kernel takes what waits, both sides are read again |
| PoolModel.EarlyExitIsEnough | protocol/connectionpool.cpp:175-215 | in a sorted deque the early exit frees what the full scan frees |
| PoolModel.EarlyExitExactly | protocol/connectionpool.cpp:175-215 | in any deque, exactly if nothing to be freed stands behind a connection used lately |
| PoolModel.OneOwner | protocol/connectionpool.cpp:66-173 | every socket saved is in one place of one deque, or in use under its own descriptor, or freed, and only one of these |
| PoolModel.GetKeeps | protocol/connectionpool.cpp:66-102 | ownership and order are kept by taking a connection |
| PoolModel.PutKeeps | protocol/connectionpool.cpp:104-132 | by giving it back |
| PoolModel.SaveKeeps | protocol/connectionpool.cpp:134-156 | by saving a new one, idle or in use |
| PoolModel.ReleaseKeeps | protocol/connectionpool.cpp:158-173 | by releasing one |
| PoolModel.CheckKeeps | protocol/connectionpool.cpp:175-215 | by the scan |
| PoolModel.RunKeeps | protocol/connectionpool.cpp:66-215 | over every run with a clock that does not run back |
| PoolModel.ScanIsRight | protocol/connectionpool.cpp:175-215 | so that in every run the early exit is enough |
| PoolModel.NoneLeftInUse | protocol/protocolbase.cpp:172-220 | after a release neither socket is in use, and no other is affected |
| PoolModel.ErrorFrees | protocol/protocolbase.cpp:172-220 | after an error the sockets in use are freed, and none becomes idle |
| PoolModel.OtherwiseIdle | protocol/protocolbase.cpp:172-220 | otherwise none is freed, and both are idle as used just now |
| Pool.ConnectionPool.GetBackendConnect | protocol/connectionpool.cpp:66-102 | the connection of the key used last, now in use |
| Pool.ConnectionPool.SetBackendConnect | protocol/connectionpool.cpp:104-132 | the connection is idle, last of its deque; refused if it is not in use |
| Pool.ConnectionPool.SaveBackendConnect | protocol/connectionpool.cpp:134-156 | the connection is in use, or first of its deque |
| Pool.ConnectionPool.ReleaseBackendSocket | protocol/connectionpool.cpp:158-173 | a connection in use is freed, once |
| Pool.ConnectionPool.CheckConnectActive | protocol/connectionpool.cpp:175-215 | every deque is what the full scan leaves; what it drops is freed, once |
| Pool.Connection.ReleaseBackendConnect | protocol/protocolbase.cpp:172-220 | both sockets are given up as PoolModel.ReleaseBoth says |
| Handles.LessIsLexicographic | handlemanager.h:46-54 | the comparison orders by cursor, then by prepared statement |
| Handles.LessIsTotal | handlemanager.h:46-54 | it is a strict total order, so that keys are one entry only if they are equal |
| Handles.HandleManager.GetGlobalHandleId | handlemanager.cpp:192-215 | the first unused id behind the last one, round the end of 32 bits; terminates |
| Handles.NoneLeft | handlemanager.cpp:192-215 | it fails exactly if every id but the last one is used |
| Handles.OnlyOne | handlemanager.cpp:192-215 | only one id is the first unused one |
| Handles.HandleManager.AddHandle | handlemanager.cpp:73-100 | the handle gets unused ids of its own; keeps live ids flagged and distinct |
| Handles.HandleManager.GetBackendHandle | handlemanager.cpp:102-113 | the server's handle, if the client's is known |
| Handles.HandleManager.GetFrontHandle | handlemanager.cpp:115-128 | the first client handle for the server's, or none if none fits |
| Handles.RemoveKeeps | handlemanager.cpp:130-137 | removing keeps live ids flagged exactly if no other live handle has the ids |
| Handles.SharedIdFreed | handlemanager.cpp:130-137 | a live handle whose id is freed because another one that is removed shares it |
| Handles.RemoveBaseCursorKeeps | handlemanager.cpp:157-172 | removing by cursor keeps it exactly if no prepared statement has that id |
| Handles.StatementFreed | handlemanager.cpp:157-172 | a live handle whose prepared id is freed because the cursor removed is the same number |
| Handles.RemoveBaseCursorFrees | handlemanager.cpp:157-172 | no id of a handle removed stays flagged, exactly if no live handle with that cursor is a prepared statement |
| Handles.StatementLeaks | handlemanager.cpp:157-172 | a handle removed by its cursor whose prepared id stays flagged |
| Handles.RunKeeps | handlemanager.cpp:73-180 | over every run, live handles have flagged ids that no other live handle has |
| SqlParams.MarkSqlParamPosition | protocol/protocolbase.cpp:625-641 | every parameter is marked with the first occurrence of its name |
| SqlParams.MarkedIsSet | protocol/protocolbase.cpp:625-689 | a parameter is filled exactly if its name is not empty, occurs, and does not begin the statement |
| SqlParams.FirstIsLeft | protocol/protocolbase.cpp:625-689 | an input whose parameter is left alone because it comes first |
| SqlParams.FillOriginSqlValue | protocol/protocolbase.cpp:643-689 | filling from the last to the first, which is substituting at each place for disjoint ranges in order; unmarked ones are left alone; stops where a position lies behind the end of the text |
| SqlParams.InRangeExactly | protocol/protocolbase.cpp:663-688 | it stops for no values exactly if every range is inside what is left when the later parameters get empty values |
| SqlParams.CrossedMisfit | protocol/protocolbase.cpp:625-689 | marked parameters of a statement, and values with which it stops |
| SqlParams.FilledIsReplaced | protocol/protocolbase.cpp:663-688 | for any number of disjoint ranges in order, filling from the last to the first is replacing all at once |
| SqlParams.ReplacedIsSubstituted | protocol/protocolbase.cpp:663-688 | and replacing all at once is substituting at each place, whichever parameter it belongs to |
| SqlParams.OrderMatters | protocol/protocolbase.cpp:663-688 | for disjoint ranges, filling from the last to the first is substituting, for all values, exactly if the ranges are in index order |
| SqlParams.OrderIsNeeded | protocol/protocolbase.cpp:625-689 | marked parameters of a statement, out of order, that are not filled right |
| SqlParams.MarkedDisjoint | protocol/protocolbase.cpp:625-641 | marked ranges of bind names are disjoint exactly if no two start at the same place |
| SqlParams.TogetherBegins | protocol/protocolbase.cpp:625-641 | which takes a name that begins the other |
| SqlParams.MarkedTogether | protocol/protocolbase.cpp:625-641 | two such names whose marked ranges overlap |
| SqlParams.PrefixStays | protocol/protocolbase.cpp:643-689 | replacing changes nothing in front of the first range |

## Left out

- SqlParams.FillOriginSqlValue: what the original does with a position behind the end of the text, which it would read; the model stops there.
- SimpleIni.Ini.AddEntry: multi-key mode, which nothing in the repository turns on (conf/config.cpp:817); `m_nOrder` does not overflow. Names, keys and comments of entries are held as strings where a first load points to them; what those pointers show never changes (`NamesAreFinal`).
- SimpleIni.Ini.LoadData: the buffer of the first load is held as the string it ends up as, since nothing writes to it later; converting the data and running out of memory are not part of it.
- IniRoundTrip.RoundTrip: what prints ambiguously: in names newlines, blanks around, `=` or a leading `[`, `;` or `#` in keys, `]` in sections; in comments CR, lines that do not start with `;` or `#`, and blank lines in that of the file; an unnamed section that is empty, has a comment, or is not the first.
- Relay.ClientThread.Handle: packets that a protocol changes or holds back, SSL, connecting to the server, and freeing the sockets when the connection ends.
- Pool.ConnectionPool.GetBackendConnect: keys are hash codes; that different addresses have different codes is not claimed.
- Pool.Connection.ReleaseBackendConnect: the branch without a pool, which deletes both sockets.
- Handles.HandleManager.AddHandle: the data packets kept with a handle.
- SqlParser.Parser.Parse: the lexer; tokens are any list. What lies behind the last token reads as a token of no kind.
- SqlParser.Parser.ParseTableNameAndAlias: its result, which no caller reads.
- ConvertUtf.ConvertUTF8toUTF32: the table of trailing bytes is a function of ranges of the lead byte.
- Stores other than plain characters and the wide converter, Windows newlines, removing keys, and typed values of `conf/simpleini.h`.
- Pointers into arrays are positions; that two arrays passed to a converter are the same is excluded by their element types or a precondition.
- Locks: every locked section is one step. Sockets, the event loop, timers, capture, statistics, and the HTTP server are not part of this model.
