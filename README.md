# XML audit, modelled in Dafny

The `audit` package of xmltool reports on the contents of XML files. It does this in two ways.

- `XMLAudit` maps every element name to a record with these fields:
  - how often the element occurs;
  - how often it holds non-blank character data;
  - the first such data, kept as an example;
  - in how many audited files it appears.
  The records can be listed by descending contents.
- `TagAudit` keeps one entry per caller-chosen name and tracks at most one listed tag at a time. A start element of a listed name makes that name the tracked one. An end element of the tracked name clears it. Each non-blank piece of character data read while a name is tracked is appended to the first entry of that name. Nesting is not followed: after a nested listed element ends, text still inside the outer element is dropped.

Both are filled by `Add`, which can be called once per file.

The model has three modules:

- `XmlText` (`xml_text.dfy`) holds the decoder's tokens and Go's `strings.TrimSpace` with `unicode.IsSpace`.
- `Audit` (`audit.dfy`) holds `XMLAudit`.
- `AuditTags` (`audit_tags.dfy`) holds `TagAudit`.

The XML decoder is replaced by its output: a sequence of raw tokens (`Start`, `End`, `CharData`, `Other`) and the reason it stopped (`Stop`).

**Each `Add` loop is a `while` loop with invariants.** The loop is proved against a ghost fold, `Run` or `TagRun`, which applies one switch iteration, `Step` or `TagStep`, per token. Each folded state is related by lemmas to declarative definitions:

- the number of start elements of a name;
- the open tag, which is the last start element unless an end element followed it;
- the tracked tag;
- the texts credited to an entry.

**Each class has a ghost `History` of the token sequences of all its calls.** Its `Valid()` invariant says the live state is exactly what that history accumulates.

**`XMLAudit` is a class with a `map` field**, since the Go type is a map whose records are updated in place. **`TagAudit` is a class with an array of entries**, since its slice has fixed length and its entries grow in place.

Both `Add` methods always return nil, and the model proves `err == None`. The code is written as if a decoding error could reach the caller: `Add` has an `error` result (audit/audit.go:32, 98, 180), and both loops are followed by an `if err != io.EOF { return err }` test (audit/audit.go:137-139, 206-208). But the `for` statement declares an `err` of its own (audit/audit.go:105, 185), so the `err` tested after the loop is never assigned and stays nil. The model follows the code: its result is None whatever the stop. The test file calls `Single`, but the package only defines `XMLAuditSingle`, and the model follows the package.

## Model

| member | source | states |
|---|---|---|
| XmlText.HasContentIff | audit/audit.go:127-128 | character data counts as content exactly when it holds a character other than Go white space (both directions) |
| XmlText.TrimLeftFacts | audit/audit.go:128 | trimming on the left removes exactly the leading white space, leaving a suffix that is empty or starts with a non-space |
| XmlText.TrimRightFacts | audit/audit.go:128 | trimming on the right removes exactly the trailing white space, leaving a prefix that is empty or ends with a non-space |
| Audit.XMLAudit.constructor | audit/audit.go:145 | a new audit is empty and describes no calls |
| Audit.XMLAudit.Add | audit/audit.go:98-141 | after one call the map is what all calls so far accumulate; the result is always nil; no entry is removed; the new keys are the started names; per name, occurs grows by the number of start elements, files by one if the name started in this file, and contents by the credited character data |
| Audit.RunFacts | audit/audit.go:105-136 | the loop of one call, name by name: the keys grow by exactly the started names, the open tag is the last start element unless an end element followed, and each entry's counters and example change as the declarative counts say |
| Audit.NextCall | audit/audit.go:98-141 | running one more call over the audit of earlier calls gives the audit of the longer history |
| Audit.NextEntry | audit/audit.go:107-134 | for one name, the entry after one more call equals the accumulated entry of the longer history |
| Audit.EntryFacts | audit/audit.go:107-120 | every entry is filed under its own name, and for every entry 1 <= files <= occurs and files is at most the number of calls; an entry with no contents has an empty example, and one with contents has a non-blank example |
| Audit.FileBounds | audit/audit.go:116-120 | a name is counted in at most one file per call and only in calls that start it, so files <= occurs and files <= number of calls; a name has an entry iff files >= 1 iff occurs >= 1 |
| Audit.OpenedIsCounted | audit/audit.go:107-115 | a name is started in a call iff its occurs grows by at least one in that call |
| Audit.ContentsNeedStart | audit/audit.go:102-130 | only a name started in the same call can be credited with contents: the open tag is a local that starts empty in every call, so content never lands on a tag left open by an earlier, cut-off document |
| Audit.TotalContentsNeedStart | audit/audit.go:121-130 | over all calls, a name with contents has an entry |
| Audit.EndClearsOpenTag | audit/audit.go:121-126 | after any end element followed by any tokens other than start elements (character data, comments, further end elements), no tag is open and no name gains contents; an enclosing tag that is still open gets nothing |
| Audit.FirstContentFacts | audit/audit.go:128-133 | one call has a first credited text iff it credits any content, and that text is non-blank |
| Audit.FirstExampleFacts | audit/audit.go:128-133 | there is an example iff the name has contents over all calls, and the example is non-blank |
| Audit.ExampleKept | audit/audit.go:131-133 | once an example is recorded, no later call changes it, so the first content is kept |
| Audit.OpenTagIsOpened | audit/audit.go:108-113 | the open tag is empty or a name started in the same call, so the character-data branch always finds its entry |
| Audit.DodgyDocument | audit/audit_test.go:9-25 | for `<dodgy><hello>Richard</hello></dodgy>` the audit has exactly the entries dodgy (occurs 1, no contents, 1 file) and hello (occurs 1, contents 1, example "Richard", 1 file) |
| Audit.XMLAudit.Render | audit/audit.go:47-62 | the rendered list is sorted by descending contents, is a permutation of the map's records, and holds each record exactly once; it has exactly one element per key of the map |
| Audit.OneRecordPerKey | audit/audit.go:54-57 | when every record is filed under its own name, the map has as many distinct records as keys, so listing its values lists every key once |
| Audit.InsertByContents | audit/audit.go:47-58 | inserting one record adds exactly that record to the list's multiset |
| Audit.InsertKeepsSorted | audit/audit.go:49 | inserting into a list sorted by descending contents keeps it sorted |
| Audit.XMLAuditSingle | audit/audit.go:144-148 | a fresh audit of one document: the keys are the started names, every files is 1, occurs counts that document's start elements, and the error is nil |
| AuditTags.TagAudit.constructor | audit/audit.go:159-167 | one entry per requested name, in order, each with no contents |
| AuditTags.TagAudit.CheckNm | audit/audit.go:169-176 | ok iff some entry has the name; when ok, idx is the first such entry; otherwise idx is 0 |
| AuditTags.FirstIndex | audit/audit.go:169-176 | the first position holding a name, or none exactly when the name is absent |
| AuditTags.NamesOfHas | audit/audit.go:170-171 | a name is among the entries' names iff some entry carries it |
| AuditTags.TagAudit.Feed | audit/audit.go:186-204 | one pass of the switch: the entries and tracked tag become what the reference step gives |
| AuditTags.TagAudit.Add | audit/audit.go:180-210 | after one call every entry holds what all calls so far collected for it; names and order never change; each entry's contents are its old contents followed by exactly what this call collected for it; the result is always nil |
| AuditTags.TagRunFacts | audit/audit.go:185-205 | the loop of one call, entry by entry: the tracked tag is the declarative one and each entry gains exactly the texts collected for it, in document order |
| AuditTags.NextTagCall | audit/audit.go:180-210 | one more call over entries that hold what the earlier calls collected gives what the longer history collects |
| AuditTags.TrackedIff | audit/audit.go:187-194 | a name is tracked iff a start element of that listed name was read, and after it there was no start element of a listed name and no end element of that name (both directions) |
| AuditTags.TrackedIsListed | audit/audit.go:188-190 | the tracked tag is empty or one of the listed names |
| AuditTags.CollectedFacts | audit/audit.go:195-203 | every collected text is non-blank; only the first entry of a non-empty name ever collects anything |
| AuditTags.AllCollectedFacts | audit/audit.go:195-203 | over all calls, every recorded content is non-blank and only the first entry of a listed name records anything |
| AuditTags.TagAuditSingle | audit/audit.go:242-246 | a fresh tag audit of one document: one entry per requested name, each holding exactly what that document collected for it, and the error is nil |

## Left out

- Reading and XML decoding: the reader and `encoding/xml`'s `RawToken` are replaced by the token sequence they produce and the reason decoding stopped. Names are local names only. Namespaces, invalid UTF-8 and malformed input are outside the model, beyond the decoder stopping.
- `XMLAudit.String`, `XMLAudit.Html`, `TagAudit.String` and `TagAudit.Html`: text and HTML formatting are not modelled. `Render` models only the order they list entries in. They print each entry's name, occurs, contents and files, and the example only when contents > 0. For tag audits they print each name and its contents in order.
- Audit.XMLAudit.Render: `sort.Sort` is not stable, and Go's map iteration order is arbitrary. So the model promises only descending contents, in any order among ties, and chooses map values nondeterministically.
- Shared pointers: Go's `*tag` and `*tagContents` records are values here, written back after each update. Nothing else holds a pointer to them, so no aliasing is lost.
- Integer width: counters are unbounded naturals. Go's `int` wrap-around at 2^63 is not modelled.
- TagAudit's slice capacity: `make([]string, 0, 100)` sets a capacity only. Contents are unbounded sequences.
- The `fix` package and `xmltool.go`: they are not part of this model.
