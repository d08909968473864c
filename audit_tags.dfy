/** TagAudit (audit/audit.go): the non-blank character data found inside a
    caller-chosen list of tag names, kept per name in the order it was read. */
module AuditTags {
  import opened XmlText

  /** Go's tagContents record. */
  datatype TagContents = TagContents(name: string, contents: seq<string>)

  ghost function NamesOf(entries: seq<TagContents>): seq<string> {
    seq(|entries|, i requires 0 <= i < |entries| => entries[i].name)
  }

  lemma NamesOfHas(entries: seq<TagContents>, nm: string)
    ensures nm in NamesOf(entries) <==> exists i :: 0 <= i < |entries| && entries[i].name == nm
  {
    if nm in NamesOf(entries) {
      var i :| 0 <= i < |entries| && NamesOf(entries)[i] == nm;
      assert entries[i].name == nm;
    }
    if exists i :: 0 <= i < |entries| && entries[i].name == nm {
      var i :| 0 <= i < |entries| && entries[i].name == nm;
      assert NamesOf(entries)[i] == nm;
    }
  }

  /** The position checkNm reports for nm: the first entry with that name, if any. */
  ghost function FirstIndex(names: seq<string>, nm: string): (r: Option<nat>)
    ensures r.Some? ==> r.value < |names| && names[r.value] == nm
    ensures r.Some? ==> forall j :: 0 <= j < r.value ==> names[j] != nm
    ensures r.None? <==> nm !in names
  {
    if names == [] then None
    else if names[0] == nm then Some(0)
    else match FirstIndex(names[1..], nm)
      case None => None
      case Some(k) => Some(k + 1)
  }

  // ---------------------------------------------------------------------------
  // The decode loop of one Add call, a token at a time.
  // ---------------------------------------------------------------------------

  /** The loop's state: the entries and the tracked tag `curr` ("" for none). */
  datatype Tracker = Tracker(entries: seq<TagContents>, curr: string)

  /** A tracked tag is always one of the listed names. */
  ghost predicate TrackerOk(s: Tracker) {
    s.curr == "" || s.curr in NamesOf(s.entries)
  }

  /** One iteration of the switch over the token's type. */
  ghost function TagStep(s: Tracker, t: Token): (r: Tracker)
    requires TrackerOk(s)
    ensures TrackerOk(r) && NamesOf(r.entries) == NamesOf(s.entries)
  {
    match t
    case Start(n) => if n in NamesOf(s.entries) then s.(curr := n) else s
    case End(n) => if s.curr == n then s.(curr := "") else s
    case CharData(text) =>
      if s.curr == "" || !HasContent(text) then s
      else
        var idx := FirstIndex(NamesOf(s.entries), s.curr).value;
        assert NamesOf(s.entries[idx := s.entries[idx].(contents := s.entries[idx].contents + [text])]) == NamesOf(s.entries);
        s.(entries := s.entries[idx := s.entries[idx].(contents := s.entries[idx].contents + [text])])
    case Other => s
  }

  /** The loop over a whole token sequence. */
  ghost function TagRun(s: Tracker, ts: seq<Token>): (r: Tracker)
    requires TrackerOk(s)
    ensures TrackerOk(r) && NamesOf(r.entries) == NamesOf(s.entries)
    decreases |ts|
  {
    if ts == [] then s else TagStep(TagRun(s, ts[..|ts| - 1]), ts[|ts| - 1])
  }

  // ---------------------------------------------------------------------------
  // What one call contributes, entry by entry.
  // ---------------------------------------------------------------------------

  /** The tag tracked after the tokens ts: a start element of a listed name makes it
      the tracked one, an end element of the tracked name clears it, nothing else matters. */
  ghost function Tracked(names: seq<string>, ts: seq<Token>): string
    decreases |ts|
  {
    if ts == [] then ""
    else
      var before := Tracked(names, ts[..|ts| - 1]);
      match ts[|ts| - 1]
      case Start(n) => if n in names then n else before
      case End(n) => if before == n then "" else before
      case _ => before
  }

  /** Token t, after prefix, is non-blank character data for entry i. */
  ghost predicate Appends(names: seq<string>, prefix: seq<Token>, t: Token, i: nat) {
    t.CharData? && HasContent(t.text) && Tracked(names, prefix) != ""
    && FirstIndex(names, Tracked(names, prefix)) == Some(i)
  }

  /** The texts one call appends to entry i, in document order. */
  ghost function Collected(names: seq<string>, ts: seq<Token>, i: nat): seq<string>
    decreases |ts|
  {
    if ts == [] then []
    else Collected(names, ts[..|ts| - 1], i)
         + (if Appends(names, ts[..|ts| - 1], ts[|ts| - 1], i) then [ts[|ts| - 1].text] else [])
  }

  /** Tag i is tracked from the start element at j onwards: no later start element of a
      listed name and no end element of n. */
  ghost predicate TrackedSince(names: seq<string>, ts: seq<Token>, j: nat, n: string) {
    && j < |ts| && ts[j] == Start(n) && n in names
    && forall k :: j < k < |ts| ==> !(ts[k].Start? && ts[k].name in names) && ts[k] != End(n)
  }

  /** The tracked tag is one of the listed names. */
  lemma {:induction false} TrackedIsListed(names: seq<string>, ts: seq<Token>)
    ensures Tracked(names, ts) == "" || Tracked(names, ts) in names
    decreases |ts|
  {
    if ts != [] {
      TrackedIsListed(names, ts[..|ts| - 1]);
    }
  }

  /** A non-empty name n is tracked exactly when a start element of n (which is listed)
      has been read and since then no start element of a listed name and no end element
      of n: starts of unlisted names and ends of other names leave tracking as it was. */
  lemma {:induction false} TrackedIff(names: seq<string>, ts: seq<Token>, n: string)
    requires n != ""
    ensures Tracked(names, ts) == n <==> exists j: nat :: TrackedSince(names, ts, j, n)
    decreases |ts|
  {
    if ts != [] {
      var init, t := ts[..|ts| - 1], ts[|ts| - 1];
      TrackedIff(names, init, n);
      if Tracked(names, ts) == n {
        if t.Start? && t.name in names {
          assert TrackedSince(names, ts, |ts| - 1, n);
        } else {
          var j: nat :| TrackedSince(names, init, j, n);
          assert TrackedSince(names, ts, j, n);
        }
      }
      if exists j: nat :: TrackedSince(names, ts, j, n) {
        var j: nat :| TrackedSince(names, ts, j, n);
        if j < |ts| - 1 {
          assert TrackedSince(names, init, j, n);
        }
      }
    }
  }

  /** Everything a call appends is non-blank text read while its entry's name was
      tracked, and only the first entry of a name ever receives anything. */
  lemma {:induction false} CollectedFacts(names: seq<string>, ts: seq<Token>, i: nat)
    ensures forall k :: 0 <= k < |Collected(names, ts, i)| ==> HasContent(Collected(names, ts, i)[k])
    ensures Collected(names, ts, i) != [] ==>
      i < |names| && FirstIndex(names, names[i]) == Some(i) && names[i] != ""
    decreases |ts|
  {
    if ts != [] {
      CollectedFacts(names, ts[..|ts| - 1], i);
      var a := Collected(names, ts[..|ts| - 1], i);
      var b := if Appends(names, ts[..|ts| - 1], ts[|ts| - 1], i) then [ts[|ts| - 1].text] else [];
      assert forall k :: 0 <= k < |a + b| ==> (a + b)[k] == if k < |a| then a[k] else b[k - |a|];
    }
  }

  /** The entries after a call over ts that started from entries e. */
  ghost function TagAfter(e: seq<TagContents>, ts: seq<Token>): (r: seq<TagContents>)
    ensures |r| == |e|
  {
    seq(|e|, i requires 0 <= i < |e| => TagContents(e[i].name, e[i].contents + Collected(NamesOf(e), ts, i)))
  }

  /** One more token keeps entry i as described. */
  lemma TagStepEntry(e: seq<TagContents>, init: seq<Token>, t: Token, s: Tracker, i: nat)
    requires TrackerOk(s) && NamesOf(s.entries) == NamesOf(e)
    requires s.curr == Tracked(NamesOf(e), init) && s.entries == TagAfter(e, init)
    requires i < |e|
    ensures TagStep(s, t).entries[i] == TagAfter(e, init + [t])[i]
  {
  }

  /** The loop of one Add call, entry by entry: no entry is added, removed or renamed,
      and entry i gains exactly the texts collected for it. */
  lemma {:induction false} TagRunFacts(e: seq<TagContents>, ts: seq<Token>)
    ensures TagRun(Tracker(e, ""), ts).curr == Tracked(NamesOf(e), ts)
    ensures TagRun(Tracker(e, ""), ts).entries == TagAfter(e, ts)
    decreases |ts|
  {
    if ts == [] {
      forall i | 0 <= i < |e|
        ensures TagAfter(e, ts)[i] == e[i]
      {
        assert Collected(NamesOf(e), ts, i) == [];
        assert e[i].contents + [] == e[i].contents;
      }
    } else {
      var init, t := ts[..|ts| - 1], ts[|ts| - 1];
      TagRunFacts(e, init);
      var s := TagRun(Tracker(e, ""), init);
      var r := TagRun(Tracker(e, ""), ts);
      assert r == TagStep(s, t);
      assert init + [t] == ts;
      forall i | 0 <= i < |e|
        ensures r.entries[i] == TagAfter(e, ts)[i]
      {
        TagStepEntry(e, init, t, s, i);
      }
    }
  }

  // ---------------------------------------------------------------------------
  // What a sequence of Add calls accumulates.
  // ---------------------------------------------------------------------------

  /** The texts all calls appended to entry i. */
  ghost function AllCollected(names: seq<string>, h: seq<seq<Token>>, i: nat): seq<string>
    decreases |h|
  {
    if h == [] then [] else AllCollected(names, h[..|h| - 1], i) + Collected(names, h[|h| - 1], i)
  }

  /** Over any number of calls, every recorded content is non-blank, and only the first
      entry of each listed name records anything. */
  lemma {:induction false} AllCollectedFacts(names: seq<string>, h: seq<seq<Token>>, i: nat)
    ensures forall k :: 0 <= k < |AllCollected(names, h, i)| ==> HasContent(AllCollected(names, h, i)[k])
    ensures AllCollected(names, h, i) != [] ==> i < |names| && FirstIndex(names, names[i]) == Some(i)
    decreases |h|
  {
    if h != [] {
      AllCollectedFacts(names, h[..|h| - 1], i);
      CollectedFacts(names, h[|h| - 1], i);
      var a, b := AllCollected(names, h[..|h| - 1], i), Collected(names, h[|h| - 1], i);
      assert forall k :: 0 <= k < |a + b| ==> (a + b)[k] == if k < |a| then a[k] else b[k - |a|];
    }
  }

  /** Running one more Add over entries that hold what h collected yields what h
      followed by that call collects. */
  lemma NextTagCall(names: seq<string>, h: seq<seq<Token>>, e: seq<TagContents>, ts: seq<Token>)
    requires |e| == |names|
    requires forall i :: 0 <= i < |names| ==> e[i] == TagContents(names[i], AllCollected(names, h, i))
    ensures forall i :: 0 <= i < |names| ==>
      TagAfter(e, ts)[i] == TagContents(names[i], AllCollected(names, h + [ts], i))
  {
    var h' := h + [ts];
    assert h'[..|h'| - 1] == h && h'[|h'| - 1] == ts;
    assert NamesOf(e) == names;
  }

  // ---------------------------------------------------------------------------
  // The TagAudit list and its methods.
  // ---------------------------------------------------------------------------

  /** Go's `*TagAudit`: a fixed-length slice of entries whose contents grow in place.
      The ghost fields hold the requested names and the token sequence of every Add call. */
  class TagAudit {
    const entries: array<TagContents>
    ghost var Names: seq<string>
    ghost var History: seq<seq<Token>>

    /** One entry per requested name, in order, holding what the calls collected for it. */
    ghost predicate Valid()
      reads this, entries
    {
      && entries.Length == |Names|
      && forall i :: 0 <= i < |Names| ==> entries[i] == TagContents(Names[i], AllCollected(Names, History, i))
    }

    /** NewTagAudit(tags...) */
    constructor (tags: seq<string>)
      ensures Valid() && Names == tags && History == [] && fresh(entries)
      ensures entries.Length == |tags| && forall i :: 0 <= i < |tags| ==> entries[i] == TagContents(tags[i], [])
    {
      var tg := new TagContents[|tags|];
      for i := 0 to |tags|
        invariant forall k :: 0 <= k < i ==> tg[k] == TagContents(tags[k], [])
      {
        tg[i] := TagContents(tags[i], []);
      }
      entries := tg;
      Names := tags;
      History := [];
    }

    /** checkNm: the first entry named nm, or (0, false) when there is none. */
    method CheckNm(nm: string) returns (idx: nat, ok: bool)
      ensures ok <==> exists i :: 0 <= i < entries.Length && entries[i].name == nm
      ensures ok ==> idx < entries.Length && entries[idx].name == nm
      ensures ok ==> forall j :: 0 <= j < idx ==> entries[j].name != nm
      ensures !ok ==> idx == 0
    {
      var i := 0;
      while i < entries.Length
        invariant 0 <= i <= entries.Length
        invariant forall j :: 0 <= j < i ==> entries[j].name != nm
      {
        if entries[i].name == nm {
          return i, true;
        }
        i := i + 1;
      }
      return 0, false;
    }

    /** One pass of the switch over a token's type: a start element of a listed name
        becomes the tracked tag, an end element of the tracked tag clears it, and
        non-blank character data is appended to the first entry of the tracked name. */
    method Feed(t: Token, curr: string) returns (next: string)
      requires TrackerOk(Tracker(entries[..], curr))
      modifies entries
      ensures Tracker(entries[..], next) == TagStep(Tracker(old(entries[..]), curr), t)
    {
      next := curr;
      match t {
        case Start(name) =>
          var _, ok := CheckNm(name);
          NamesOfHas(entries[..], name);
          if ok {
            next := name;
          }
        case End(name) =>
          if curr == name {
            next := "";
          }
        case CharData(content) =>
          if curr != "" && |TrimSpace(content)| > 0 {
            var idx, found := CheckNm(curr);
            NamesOfHas(entries[..], curr);
            assert found;
            ghost var first := FirstIndex(NamesOf(entries[..]), curr);
            assert first.Some? && NamesOf(entries[..])[idx] == curr;
            assert first == Some(idx);
            entries[idx] := entries[idx].(contents := entries[idx].contents + [content]);
            assert entries[..] == old(entries[..])[idx := old(entries[..])[idx].(contents := old(entries[..])[idx].contents + [content])];
          }
        case Other =>
      }
    }

    /** Tag-audits the tokens decoded from one reader. The decoder hands out `tokens`
        and then stops for reason `stop`; whatever the stop, the result is nil,
        because the loop's own err shadows the one tested after it. */
    method Add(tokens: seq<Token>, stop: Stop) returns (err: Option<AddError>)
      requires Valid()
      modifies this, entries
      ensures Valid() && Names == old(Names) && History == old(History) + [tokens]
      ensures err == None
      ensures entries[..] == TagRun(Tracker(old(entries[..]), ""), tokens).entries
      ensures forall i :: 0 <= i < entries.Length ==>
        entries[i].name == old(entries[i].name) && entries[i].contents == old(entries[i].contents) + Collected(Names, tokens, i)
    {
      err := None;
      var curr := "";
      ghost var start := entries[..];
      assert NamesOf(start) == Names;
      var i := 0;
      while i < |tokens|
        invariant 0 <= i <= |tokens|
        invariant Tracker(entries[..], curr) == TagRun(Tracker(start, ""), tokens[..i])
        invariant Names == old(Names) && History == old(History)
      {
        assert tokens[..i + 1][..i] == tokens[..i];
        curr := Feed(tokens[i], curr);
        i := i + 1;
      }
      assert tokens[..i] == tokens;
      TagRunFacts(start, tokens);
      History := History + [tokens];
      NextTagCall(Names, old(History), start, tokens);
      if err != Some(Eof) {
        return err;
      }
      return None;
    }
  }

  /** Tag-audits a single document for the given names. */
  method TagAuditSingle(tokens: seq<Token>, stop: Stop, tags: seq<string>) returns (ta: TagAudit, err: Option<AddError>)
    ensures fresh(ta) && ta.Valid() && ta.Names == tags && ta.History == [tokens]
    ensures err == None
    ensures ta.entries.Length == |tags| && forall i :: 0 <= i < |tags| ==>
      ta.entries[i] == TagContents(tags[i], Collected(tags, tokens, i))
  {
    ta := new TagAudit(tags);
    err := ta.Add(tokens, stop);
  }
}
