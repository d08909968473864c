/** XMLAudit (audit/audit.go): per tag name, how often the tag occurs, how often it
    holds non-blank character data, the first such data, and in how many of the
    audited files it appears. */
module Audit {
  import opened XmlText

  /** Go's tag record. */
  datatype Tag = Tag(name: string, occurs: nat, contents: nat, example: string, files: nat)

  /** The entry for n; a name not yet audited reads as the fresh record Add would create for it. */
  function Lookup(m: map<string, Tag>, n: string): Tag {
    if n in m then m[n] else Tag(n, 0, 0, "", 0)
  }

  // ---------------------------------------------------------------------------
  // The decode loop of one Add call, a token at a time.
  // ---------------------------------------------------------------------------

  /** The loop's state: the map, the open tag `curr` ("" for none), and the names started in this call. */
  datatype Scan = Scan(tags: map<string, Tag>, curr: string, seen: set<string>)

  /** An open tag always has an entry, so the character-data branch may look it up. */
  ghost predicate ScanOk(s: Scan) {
    s.curr == "" || s.curr in s.tags
  }

  /** The state an Add call starts from. */
  ghost function Begin(m: map<string, Tag>): (s: Scan)
    ensures ScanOk(s)
  {
    Scan(m, "", {})
  }

  /** One iteration of the switch over the token's type. */
  ghost function Step(s: Scan, t: Token): (r: Scan)
    requires ScanOk(s)
    ensures ScanOk(r)
  {
    match t
    case Start(n) =>
      var tg := Lookup(s.tags, n);
      var bumped := tg.(occurs := tg.occurs + 1, files := if n in s.seen then tg.files else tg.files + 1);
      Scan(s.tags[n := bumped], n, s.seen + {n})
    case End(_) => s.(curr := "")
    case CharData(text) =>
      if s.curr == "" || !HasContent(text) then s
      else
        var tg := s.tags[s.curr];
        var counted := tg.(contents := tg.contents + 1);
        s.(tags := s.tags[s.curr := if counted.contents < 2 then counted.(example := text) else counted])
    case Other => s
  }

  /** The loop over a whole token sequence. */
  ghost function Run(s: Scan, ts: seq<Token>): (r: Scan)
    requires ScanOk(s)
    ensures ScanOk(r)
    decreases |ts|
  {
    if ts == [] then s else Step(Run(s, ts[..|ts| - 1]), ts[|ts| - 1])
  }

  // ---------------------------------------------------------------------------
  // What one call contributes, name by name.
  // ---------------------------------------------------------------------------

  /** The number of start elements named n. */
  ghost function CountStarts(ts: seq<Token>, n: string): nat
    decreases |ts|
  {
    if ts == [] then 0
    else CountStarts(ts[..|ts| - 1], n) + (if ts[|ts| - 1] == Start(n) then 1 else 0)
  }

  /** The names of all start elements. */
  ghost function Opened(ts: seq<Token>): set<string>
    decreases |ts|
  {
    if ts == [] then {}
    else Opened(ts[..|ts| - 1]) + (if ts[|ts| - 1].Start? then {ts[|ts| - 1].name} else {})
  }

  /** The tag that character data following ts belongs to: the name of the last
      start element, unless an end element (of any name) came after it. */
  ghost function OpenTag(ts: seq<Token>): string
    decreases |ts|
  {
    if ts == [] then ""
    else match ts[|ts| - 1]
      case Start(n) => n
      case End(_) => ""
      case _ => OpenTag(ts[..|ts| - 1])
  }

  /** Token t, coming after prefix, is non-blank character data inside an open tag named n. */
  ghost predicate Credits(prefix: seq<Token>, t: Token, n: string) {
    t.CharData? && HasContent(t.text) && n != "" && OpenTag(prefix) == n
  }

  /** The number of character data tokens credited to n. */
  ghost function CountContents(ts: seq<Token>, n: string): nat
    decreases |ts|
  {
    if ts == [] then 0
    else CountContents(ts[..|ts| - 1], n) + (if Credits(ts[..|ts| - 1], ts[|ts| - 1], n) then 1 else 0)
  }

  /** The text of the first character data token credited to n. */
  ghost function FirstContent(ts: seq<Token>, n: string): Option<string>
    decreases |ts|
  {
    if ts == [] then None
    else
      var earlier := FirstContent(ts[..|ts| - 1], n);
      if earlier.Some? then earlier
      else if Credits(ts[..|ts| - 1], ts[|ts| - 1], n) then Some(ts[|ts| - 1].text)
      else None
  }

  /** The entry for n after a call over ts that started from map m. */
  ghost function After(m: map<string, Tag>, ts: seq<Token>, n: string): Tag {
    var tg := Lookup(m, n);
    var first := FirstContent(ts, n);
    Tag(tg.name,
        tg.occurs + CountStarts(ts, n),
        tg.contents + CountContents(ts, n),
        if tg.contents == 0 && first.Some? then first.value else tg.example,
        tg.files + (if n in Opened(ts) then 1 else 0))
  }

  lemma {:induction false} OpenTagIsOpened(ts: seq<Token>)
    ensures OpenTag(ts) == "" || OpenTag(ts) in Opened(ts)
    decreases |ts|
  {
    if ts != [] {
      OpenTagIsOpened(ts[..|ts| - 1]);
    }
  }

  /** A start element is counted at least once for every name it opens. */
  lemma {:induction false} OpenedIsCounted(ts: seq<Token>, n: string)
    ensures n in Opened(ts) <==> CountStarts(ts, n) >= 1
    decreases |ts|
  {
    if ts != [] {
      OpenedIsCounted(ts[..|ts| - 1], n);
    }
  }

  /** Only a tag that was started in the same call can be credited with contents. */
  lemma {:induction false} ContentsNeedStart(ts: seq<Token>, n: string)
    ensures CountContents(ts, n) > 0 ==> n in Opened(ts)
    decreases |ts|
  {
    if ts != [] {
      ContentsNeedStart(ts[..|ts| - 1], n);
      OpenTagIsOpened(ts[..|ts| - 1]);
    }
  }

  /** Nesting is not tracked: after any end element, and until the next start element,
      no tag is open and character data is credited to no tag, even when an enclosing
      tag is still open. */
  lemma {:induction false} EndClearsOpenTag(ts: seq<Token>, closed: string, rest: seq<Token>, n: string)
    requires forall k :: 0 <= k < |rest| ==> !rest[k].Start?
    ensures OpenTag(ts + [End(closed)] + rest) == ""
    ensures CountContents(ts + [End(closed)] + rest, n) == CountContents(ts, n)
    decreases |rest|
  {
    var closing := ts + [End(closed)];
    var all := closing + rest;
    if rest == [] {
      assert all == closing && closing[..|closing| - 1] == ts;
    } else {
      var init := rest[..|rest| - 1];
      EndClearsOpenTag(ts, closed, init, n);
      assert all[..|all| - 1] == closing + init;
      assert all[|all| - 1] == rest[|rest| - 1];
    }
  }

  /** There is a first content exactly when some content was credited, and it is non-blank. */
  lemma {:induction false} FirstContentFacts(ts: seq<Token>, n: string)
    ensures FirstContent(ts, n).Some? <==> CountContents(ts, n) > 0
    ensures FirstContent(ts, n).Some? ==> HasContent(FirstContent(ts, n).value)
    decreases |ts|
  {
    if ts != [] {
      FirstContentFacts(ts[..|ts| - 1], n);
    }
  }

  /** The name-by-name description of a loop state reached after the tokens ts. */
  ghost predicate Describes(m: map<string, Tag>, ts: seq<Token>, s: Scan) {
    && DescribesShape(m, ts, s)
    && forall n :: n in s.tags ==> s.tags[n] == After(m, ts, n)
  }

  /** The description, for one name. */
  ghost predicate DescribesEntry(m: map<string, Tag>, ts: seq<Token>, s: Scan, n: string) {
    n in s.tags ==> s.tags[n] == After(m, ts, n)
  }

  /** The description, apart from the entries. */
  ghost predicate DescribesShape(m: map<string, Tag>, ts: seq<Token>, s: Scan) {
    && s.curr == OpenTag(ts)
    && s.seen == Opened(ts)
    && s.tags.Keys == m.Keys + Opened(ts)
  }

  /** A start element of n0 keeps the entry of n as described. */
  lemma StartEntry(m: map<string, Tag>, init: seq<Token>, n0: string, s: Scan, n: string)
    requires ScanOk(s) && DescribesShape(m, init, s) && DescribesEntry(m, init, s, n)
    ensures DescribesEntry(m, init + [Start(n0)], Step(s, Start(n0)), n)
  {
    var ts := init + [Start(n0)];
    assert ts[..|ts| - 1] == init;
    if n == n0 {
      OpenedIsCounted(init, n);
      ContentsNeedStart(init, n);
      FirstContentFacts(init, n);
    }
  }

  /** Character data keeps the entry of n as described. */
  lemma CharDataEntry(m: map<string, Tag>, init: seq<Token>, text: string, s: Scan, n: string)
    requires ScanOk(s) && DescribesShape(m, init, s) && DescribesEntry(m, init, s, n)
    ensures DescribesEntry(m, init + [CharData(text)], Step(s, CharData(text)), n)
  {
    var ts := init + [CharData(text)];
    assert ts[..|ts| - 1] == init;
    FirstContentFacts(init, n);
  }

  /** An end element, or a token the audit ignores, keeps the entry of n as described. */
  lemma PassEntry(m: map<string, Tag>, init: seq<Token>, t: Token, s: Scan, n: string)
    requires ScanOk(s) && DescribesShape(m, init, s) && DescribesEntry(m, init, s, n)
    requires t.End? || t.Other?
    ensures DescribesEntry(m, init + [t], Step(s, t), n)
  {
  }

  /** One more token keeps the shape. */
  lemma StepShape(m: map<string, Tag>, init: seq<Token>, t: Token, s: Scan)
    requires ScanOk(s) && DescribesShape(m, init, s)
    ensures DescribesShape(m, init + [t], Step(s, t))
  {
  }

  /** One more token keeps the description. */
  lemma StepFacts(m: map<string, Tag>, init: seq<Token>, t: Token, s: Scan)
    requires ScanOk(s) && Describes(m, init, s)
    ensures Describes(m, init + [t], Step(s, t))
  {
    StepShape(m, init, t, s);
    var r := Step(s, t);
    forall n | n in r.tags
      ensures r.tags[n] == After(m, init + [t], n)
    {
      assert DescribesEntry(m, init, s, n);
      match t
      case Start(n0) => StartEntry(m, init, n0, s, n);
      case CharData(text) => CharDataEntry(m, init, text, s, n);
      case _ => PassEntry(m, init, t, s, n);
    }
  }

  /** The loop of one Add call, described name by name: the map gains exactly the
      started names, each entry's counters grow by that name's starts, credited
      contents and (at most once) files, and the example is set only by the first
      content of an entry that had none. */
  lemma {:induction false} RunFacts(m: map<string, Tag>, ts: seq<Token>)
    ensures Describes(m, ts, Run(Begin(m), ts))
    decreases |ts|
  {
    if ts != [] {
      var init := ts[..|ts| - 1];
      RunFacts(m, init);
      StepFacts(m, init, ts[|ts| - 1], Run(Begin(m), init));
      assert init + [ts[|ts| - 1]] == ts;
    }
  }

  // ---------------------------------------------------------------------------
  // What a sequence of Add calls accumulates.
  // ---------------------------------------------------------------------------

  /** Start elements named n over all calls. */
  ghost function TotalStarts(h: seq<seq<Token>>, n: string): nat
    decreases |h|
  {
    if h == [] then 0 else TotalStarts(h[..|h| - 1], n) + CountStarts(h[|h| - 1], n)
  }

  /** The number of calls with at least one start element named n. */
  ghost function FileCount(h: seq<seq<Token>>, n: string): nat
    decreases |h|
  {
    if h == [] then 0 else FileCount(h[..|h| - 1], n) + (if n in Opened(h[|h| - 1]) then 1 else 0)
  }

  /** Credited contents of n over all calls. */
  ghost function TotalContents(h: seq<seq<Token>>, n: string): nat
    decreases |h|
  {
    if h == [] then 0 else TotalContents(h[..|h| - 1], n) + CountContents(h[|h| - 1], n)
  }

  /** The first content credited to n in the earliest call that credited any. */
  ghost function FirstExample(h: seq<seq<Token>>, n: string): Option<string>
    decreases |h|
  {
    if h == [] then None
    else
      var earlier := FirstExample(h[..|h| - 1], n);
      if earlier.Some? then earlier else FirstContent(h[|h| - 1], n)
  }

  /** Every name started in some call. */
  ghost function AllOpened(h: seq<seq<Token>>): set<string>
    decreases |h|
  {
    if h == [] then {} else AllOpened(h[..|h| - 1]) + Opened(h[|h| - 1])
  }

  /** The audit the calls h should have produced, starting from an empty map. */
  ghost function Expected(h: seq<seq<Token>>): map<string, Tag> {
    map n | n in AllOpened(h) ::
      Tag(n, TotalStarts(h, n), TotalContents(h, n),
          if FirstExample(h, n).Some? then FirstExample(h, n).value else "",
          FileCount(h, n))
  }

  lemma {:induction false} TotalContentsNeedStart(h: seq<seq<Token>>, n: string)
    ensures TotalContents(h, n) > 0 ==> n in AllOpened(h)
    decreases |h|
  {
    if h != [] {
      TotalContentsNeedStart(h[..|h| - 1], n);
      ContentsNeedStart(h[|h| - 1], n);
    }
  }

  /** There is an example exactly when some content was credited, and it is non-blank. */
  lemma {:induction false} FirstExampleFacts(h: seq<seq<Token>>, n: string)
    ensures FirstExample(h, n).Some? <==> TotalContents(h, n) > 0
    ensures FirstExample(h, n).Some? ==> HasContent(FirstExample(h, n).value)
    decreases |h|
  {
    if h != [] {
      FirstExampleFacts(h[..|h| - 1], n);
      FirstContentFacts(h[|h| - 1], n);
    }
  }

  /** Once an example is recorded, later calls never overwrite it. */
  lemma {:induction false} ExampleKept(h: seq<seq<Token>>, later: seq<seq<Token>>, n: string)
    requires FirstExample(h, n).Some?
    ensures FirstExample(h + later, n) == FirstExample(h, n)
    decreases |later|
  {
    if later != [] {
      var hl := h + later;
      assert hl[..|hl| - 1] == h + later[..|later| - 1];
      ExampleKept(h, later[..|later| - 1], n);
    } else {
      assert h + later == h;
    }
  }

  /** A name is counted in at most one file per call, and only in calls that start it,
      so files stays between 1 and occurs, and never exceeds the number of calls. */
  lemma {:induction false} FileBounds(h: seq<seq<Token>>, n: string)
    ensures FileCount(h, n) <= TotalStarts(h, n)
    ensures FileCount(h, n) <= |h|
    ensures n in AllOpened(h) <==> FileCount(h, n) >= 1
    ensures n in AllOpened(h) <==> TotalStarts(h, n) >= 1
    decreases |h|
  {
    if h != [] {
      FileBounds(h[..|h| - 1], n);
      OpenedIsCounted(h[|h| - 1], n);
    }
  }

  /** Every entry of an audit is filed under its own name, with 1 <= files <= occurs,
      files at most the number of audited files, and an example exactly when it has contents. */
  lemma EntryFacts(h: seq<seq<Token>>)
    ensures forall n :: n in Expected(h) ==>
      && Expected(h)[n].name == n
      && 1 <= Expected(h)[n].files <= Expected(h)[n].occurs
      && Expected(h)[n].files <= |h|
      && (Expected(h)[n].contents == 0 ==> Expected(h)[n].example == "")
      && (Expected(h)[n].contents > 0 ==> HasContent(Expected(h)[n].example))
  {
    forall n | n in Expected(h)
      ensures 1 <= Expected(h)[n].files <= Expected(h)[n].occurs
      ensures Expected(h)[n].files <= |h|
      ensures Expected(h)[n].contents == 0 ==> Expected(h)[n].example == ""
      ensures Expected(h)[n].contents > 0 ==> HasContent(Expected(h)[n].example)
    {
      FileBounds(h, n);
      FirstExampleFacts(h, n);
    }
  }

  /** The entry of n after one more call, as the loop describes it, is the entry of the longer history. */
  lemma NextEntry(h: seq<seq<Token>>, ts: seq<Token>, n: string)
    requires n in AllOpened(h + [ts])
    ensures After(Expected(h), ts, n) == Expected(h + [ts])[n]
  {
    var h' := h + [ts];
    assert h'[..|h'| - 1] == h && h'[|h'| - 1] == ts;
    FirstExampleFacts(h, n);
    TotalContentsNeedStart(h, n);
    FileBounds(h, n);
  }

  /** Running one more Add over an audit of h yields the audit of h followed by that call. */
  lemma NextCall(h: seq<seq<Token>>, ts: seq<Token>)
    ensures Run(Begin(Expected(h)), ts).tags == Expected(h + [ts])
  {
    var h' := h + [ts];
    assert h'[..|h'| - 1] == h && h'[|h'| - 1] == ts;
    assert AllOpened(h') == AllOpened(h) + Opened(ts);
    RunFacts(Expected(h), ts);
    var r := Run(Begin(Expected(h)), ts).tags;
    forall n | n in r
      ensures r[n] == Expected(h')[n]
    {
      NextEntry(h, ts, n);
    }
  }

  /** audit/audit_test.go: one document <dodgy><hello>Richard</hello></dodgy>. */
  lemma DodgyDocument()
    ensures var a := Expected([[Start("dodgy"), Start("hello"), CharData("Richard"), End("hello"), End("dodgy")]]);
      && a.Keys == {"dodgy", "hello"}
      && a["dodgy"] == Tag("dodgy", 1, 0, "", 1)
      && a["hello"] == Tag("hello", 1, 1, "Richard", 1)
  {
    var t1 := [Start("dodgy")];
    var t2 := t1 + [Start("hello")];
    var t3 := t2 + [CharData("Richard")];
    var t4 := t3 + [End("hello")];
    var ts := t4 + [End("dodgy")];
    assert t1[..0] == [] && t2[..1] == t1 && t3[..2] == t2 && t4[..3] == t3 && ts[..4] == t4;
    assert HasContent("Richard") by {
      assert TrimLeft("Richard") == "Richard";
      assert TrimRight("Richard") == "Richard";
    }
    assert "dodgy" != "hello" by {
      assert "dodgy"[0] != "hello"[0];
    }
    assert OpenTag(t2) == "hello";
    assert Opened(t2) == {"dodgy", "hello"};
    assert Opened(t3) == {"dodgy", "hello"};
    assert Opened(t4) == {"dodgy", "hello"};
    assert Opened(ts) == {"dodgy", "hello"};
    assert CountStarts(t2, "dodgy") == 1 && CountStarts(t2, "hello") == 1;
    assert CountStarts(t3, "dodgy") == 1 && CountStarts(t3, "hello") == 1;
    assert CountStarts(t4, "dodgy") == 1 && CountStarts(t4, "hello") == 1;
    assert CountContents(t2, "hello") == 0 && FirstContent(t2, "hello") == None;
    assert Credits(t2, CharData("Richard"), "hello");
    assert CountContents(t3, "hello") == 1 && FirstContent(t3, "hello") == Some("Richard");
    assert CountContents(t4, "hello") == 1 && FirstContent(t4, "hello") == Some("Richard");
    assert CountContents(t2, "dodgy") == 0 && FirstContent(t2, "dodgy") == None;
    assert !Credits(t2, CharData("Richard"), "dodgy");
    assert CountContents(t3, "dodgy") == 0 && FirstContent(t3, "dodgy") == None;
    assert CountContents(t4, "dodgy") == 0 && FirstContent(t4, "dodgy") == None;
    assert CountStarts(ts, "dodgy") == 1 && CountStarts(ts, "hello") == 1;
    assert CountContents(ts, "dodgy") == 0 && CountContents(ts, "hello") == 1;
    assert FirstContent(ts, "dodgy") == None && FirstContent(ts, "hello") == Some("Richard");
    var h := [ts];
    assert h[..0] == [];
    assert AllOpened(h) == {"dodgy", "hello"};
    assert FileCount(h, "dodgy") == 1 && FileCount(h, "hello") == 1;
    assert FirstExample(h, "dodgy") == None && FirstExample(h, "hello") == Some("Richard");
    assert TotalStarts(h, "dodgy") == 1 && TotalContents(h, "dodgy") == 0;
    assert ts == [Start("dodgy"), Start("hello"), CharData("Richard"), End("hello"), End("dodgy")];
    assert Expected(h).Keys == {"dodgy", "hello"};
  }

  // ---------------------------------------------------------------------------
  // The XMLAudit map and its methods.
  // ---------------------------------------------------------------------------

  /** Go's `map[string]*tag` type; the ghost History holds the token sequence of every Add call so far. */
  class XMLAudit {
    var tags: map<string, Tag>
    ghost var History: seq<seq<Token>>

    /** The map is exactly what its calls accumulate. */
    ghost predicate Valid()
      reads this
    {
      tags == Expected(History)
    }

    /** make(XMLAudit) */
    constructor ()
      ensures Valid() && History == [] && tags == map[]
    {
      tags := map[];
      History := [];
      new;
      assert Expected([]) == map[];
    }

    /** Audits the tokens decoded from one reader. The decoder hands out `tokens`
        and then stops for reason `stop`; whatever the stop, the result is nil,
        because the loop's own err shadows the one tested after it. */
    method Add(tokens: seq<Token>, stop: Stop) returns (err: Option<AddError>)
      requires Valid()
      modifies this
      ensures Valid() && History == old(History) + [tokens]
      ensures err == None
      ensures tags == Run(Begin(old(tags)), tokens).tags
      ensures old(tags).Keys <= tags.Keys && tags.Keys == old(tags).Keys + Opened(tokens)
      ensures forall n :: n in tags ==> tags[n].occurs == Lookup(old(tags), n).occurs + CountStarts(tokens, n)
      ensures forall n :: n in tags ==> tags[n].files == Lookup(old(tags), n).files + (if n in Opened(tokens) then 1 else 0)
      ensures forall n :: n in tags ==> tags[n].contents == Lookup(old(tags), n).contents + CountContents(tokens, n)
    {
      var seen: set<string> := {};
      err := None;
      var curr := "";
      ghost var start := tags;
      var i := 0;
      while i < |tokens|
        invariant 0 <= i <= |tokens|
        invariant Scan(tags, curr, seen) == Run(Begin(start), tokens[..i])
        invariant History == old(History)
      {
        assert tokens[..i + 1][..i] == tokens[..i];
        ghost var before := Scan(tags, curr, seen);
        // Go's tg points into the map; here the updated record is written back.
        match tokens[i] {
          case Start(name) =>
            curr := name;
            var tg := Lookup(tags, curr);
            tg := tg.(occurs := tg.occurs + 1);
            if curr !in seen {
              tg := tg.(files := tg.files + 1);
              seen := seen + {curr};
            }
            tags := tags[curr := tg];
          case End(_) =>
            curr := "";
          case CharData(content) =>
            if curr != "" && |TrimSpace(content)| > 0 {
              var tg := tags[curr];
              tg := tg.(contents := tg.contents + 1);
              if tg.contents < 2 {
                tg := tg.(example := content);
              }
              tags := tags[curr := tg];
            }
          case Other =>
        }
        assert Scan(tags, curr, seen) == Step(before, tokens[i]);
        i := i + 1;
      }
      assert tokens[..i] == tokens;
      RunFacts(start, tokens);
      NextCall(History, tokens);
      History := History + [tokens];
      if err != Some(Eof) {
        return err;
      }
      return None;
    }

    /** The entries in the order the text and HTML renderings list them: by
        descending contents, every entry of the map once (ties in any order). */
    method Render() returns (r: seq<Tag>)
      requires Valid()
      ensures |r| == |tags|
      ensures SortedByContents(r)
      ensures multiset(r) == multiset(tags.Values)
      ensures forall i :: 0 <= i < |r| ==> r[i] in tags.Values
      ensures forall n :: n in tags ==> multiset(r)[tags[n]] == 1
    {
      r := [];
      var rest := tags.Values;
      while rest != {}
        invariant rest <= tags.Values
        invariant SortedByContents(r)
        invariant multiset(r) + multiset(rest) == multiset(tags.Values)
        decreases |rest|
      {
        var v :| v in rest;
        InsertKeepsSorted(r, v);
        r := InsertByContents(r, v);
        rest := rest - {v};
      }
      assert multiset(r) == multiset(tags.Values);
      forall i | 0 <= i < |r|
        ensures r[i] in tags.Values
      {
        assert r[i] in multiset(r);
      }
      EntryFacts(History);
      OneRecordPerKey(tags);
      assert |r| == |multiset(r)| == |multiset(tags.Values)| == |tags.Values|;
    }
  }

  /** Audits a single document. */
  method XMLAuditSingle(tokens: seq<Token>, stop: Stop) returns (audit: XMLAudit, err: Option<AddError>)
    ensures fresh(audit) && audit.Valid() && audit.History == [tokens]
    ensures err == None
    ensures audit.tags.Keys == Opened(tokens)
    ensures forall n :: n in audit.tags ==>
      audit.tags[n].files == 1 && audit.tags[n].occurs == CountStarts(tokens, n)
  {
    audit := new XMLAudit();
    err := audit.Add(tokens, stop);
    forall n | n in audit.tags
      ensures audit.tags[n].files == 1
    {
      OpenedIsCounted(tokens, n);
    }
  }

  /** A set covered by the images of s under f is no larger than s. */
  lemma {:induction false} ImageNoLarger<A, B>(s: set<A>, image: set<B>, f: A -> B)
    requires forall y :: y in image ==> exists x :: x in s && f(x) == y
    ensures |image| <= |s|
    decreases |s|
  {
    if s != {} {
      var x :| x in s;
      var rest, restImage := s - {x}, image - {f(x)};
      forall y | y in restImage
        ensures exists x' :: x' in rest && f(x') == y
      {
        var x' :| x' in s && f(x') == y;
        assert x' in rest;
      }
      ImageNoLarger(rest, restImage, f);
    } else {
      assert image == {};
    }
  }

  /** When every record is filed under its own name, there are as many records as keys. */
  lemma OneRecordPerKey(m: map<string, Tag>)
    requires forall n :: n in m ==> m[n].name == n
    ensures |m.Values| == |m.Keys|
  {
    var record := (n: string) => Lookup(m, n);
    forall t | t in m.Values
      ensures exists n :: n in m.Keys && record(n) == t
    {
      var n :| n in m && m[n] == t;
      assert record(n) == t;
    }
    ImageNoLarger(m.Keys, m.Values, record);
    var name := (t: Tag) => t.name;
    forall n | n in m.Keys
      ensures exists t :: t in m.Values && name(t) == n
    {
      assert m[n] in m.Values && name(m[n]) == n;
    }
    ImageNoLarger(m.Values, m.Keys, name);
  }

  /** Go's sort order: an entry with more contents comes first. */
  ghost predicate SortedByContents(s: seq<Tag>) {
    forall i, j :: 0 <= i < j < |s| ==> s[i].contents >= s[j].contents
  }

  /** Places t before the first entry with fewer contents. */
  function InsertByContents(s: seq<Tag>, t: Tag): (r: seq<Tag>)
    ensures multiset(r) == multiset(s) + multiset{t}
    ensures |r| == |s| + 1
    ensures r[0] == t || (s != [] && r[0] == s[0])
  {
    if s == [] || t.contents >= s[0].contents then [t] + s
    else
      var rest := InsertByContents(s[1..], t);
      assert s == [s[0]] + s[1..];
      [s[0]] + rest
  }

  /** Inserting into a sorted list keeps it sorted. */
  lemma {:induction false} InsertKeepsSorted(s: seq<Tag>, t: Tag)
    requires SortedByContents(s)
    ensures SortedByContents(InsertByContents(s, t))
  {
    if s != [] && t.contents < s[0].contents {
      InsertKeepsSorted(s[1..], t);
      assert InsertByContents(s, t) == [s[0]] + InsertByContents(s[1..], t);
    }
  }
}
