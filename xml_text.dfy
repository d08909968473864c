/** The boundary the audit code sees: the tokens the XML decoder hands out, the
    way a decode loop ends, and Go's strings.TrimSpace on character data. */
module XmlText {

  /** One raw token of the XML decoder. Only the local part of a name matters
      to the audit; comments, processing instructions and directives are Other. */
  datatype Token = Start(name: string) | End(name: string) | CharData(text: string) | Other

  /** Why the decoder stopped handing out tokens. */
  datatype Stop = EndOfInput | DecodeError(message: string)

  /** The error an Add call returns (Go's error interface; None is nil). */
  datatype AddError = Eof | Failed(message: string)

  datatype Option<T> = None | Some(value: T)

  /** Go's unicode.IsSpace: the Latin-1 spaces and the White_Space code points above them. */
  predicate IsSpace(c: char) {
    c == ' ' || c == '\t' || c == '\n' || c == '\U{000B}' || c == '\U{000C}' || c == '\r'
    || c == '\U{0085}' || c == '\U{00A0}' || c == '\U{1680}'
    || ('\U{2000}' <= c <= '\U{200A}')
    || c == '\U{2028}' || c == '\U{2029}' || c == '\U{202F}' || c == '\U{205F}' || c == '\U{3000}'
  }

  /** strings.TrimLeftFunc(s, unicode.IsSpace) */
  function TrimLeft(s: string): string {
    if s != [] && IsSpace(s[0]) then TrimLeft(s[1..]) else s
  }

  /** strings.TrimRightFunc(s, unicode.IsSpace) */
  function TrimRight(s: string): string {
    if s != [] && IsSpace(s[|s| - 1]) then TrimRight(s[..|s| - 1]) else s
  }

  /** TrimLeft drops exactly the leading run of white space. */
  lemma {:induction false} TrimLeftFacts(s: string)
    ensures |TrimLeft(s)| <= |s| && TrimLeft(s) == s[|s| - |TrimLeft(s)|..]
    ensures TrimLeft(s) == [] || !IsSpace(TrimLeft(s)[0])
    ensures forall k :: 0 <= k < |s| - |TrimLeft(s)| ==> IsSpace(s[k])
  {
    if s != [] && IsSpace(s[0]) {
      TrimLeftFacts(s[1..]);
    }
  }

  /** TrimRight drops exactly the trailing run of white space. */
  lemma {:induction false} TrimRightFacts(s: string)
    ensures |TrimRight(s)| <= |s| && TrimRight(s) == s[..|TrimRight(s)|]
    ensures TrimRight(s) == [] || !IsSpace(TrimRight(s)[|TrimRight(s)| - 1])
    ensures forall k :: |TrimRight(s)| <= k < |s| ==> IsSpace(s[k])
  {
    if s != [] && IsSpace(s[|s| - 1]) {
      TrimRightFacts(s[..|s| - 1]);
    }
  }

  /** strings.TrimSpace: s without its leading and trailing white space. */
  function TrimSpace(s: string): string {
    TrimRight(TrimLeft(s))
  }

  /** The audit's test for character data worth recording: len(strings.TrimSpace(text)) > 0. */
  predicate HasContent(text: string) {
    |TrimSpace(text)| > 0
  }

  /** Text is worth recording exactly when it holds a character that is not white space. */
  lemma HasContentIff(text: string)
    ensures HasContent(text) <==> exists k :: 0 <= k < |text| && !IsSpace(text[k])
  {
    if exists k :: 0 <= k < |text| && !IsSpace(text[k]) {
      var k :| 0 <= k < |text| && !IsSpace(text[k]);
      var l := TrimLeft(text);
      TrimLeftFacts(text);
      TrimRightFacts(l);
      assert k >= |text| - |l|;
      assert l != [] && !IsSpace(l[0]);
      assert TrimRight(l) != [];
    } else {
      AllSpaceTrimsAway(text);
    }
  }

  lemma {:induction false} AllSpaceTrimsAway(s: string)
    requires forall k :: 0 <= k < |s| ==> IsSpace(s[k])
    ensures TrimLeft(s) == []
  {
    if s != [] {
      assert forall k :: 0 <= k < |s[1..]| ==> s[1..][k] == s[k + 1];
      AllSpaceTrimsAway(s[1..]);
    }
  }
}
