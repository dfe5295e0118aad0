/** Blank text and trimming, shared by the assistant and the crontab. */
module Texts {

  /** White space as Unicode defines it. */
  predicate IsSpace(c: char) {
    '\t' <= c <= '\r' || c == ' ' || c == '\U{0085}' || c == '\U{00A0}' || c == '\U{1680}'
    || c == '\U{2028}' || c == '\U{2029}' || c == '\U{202F}' || c == '\U{205F}' || c == '\U{3000}'
    || '\U{2000}' <= c <= '\U{200A}'
  }

  predicate Blank(s: string) {
    forall i | 0 <= i < |s| :: IsSpace(s[i])
  }

  function TrimLeft(s: string): (r: string)
    ensures |r| <= |s| && r == s[|s| - |r|..]
    ensures r == "" <==> Blank(s)
    ensures r != "" ==> !IsSpace(r[0])
  {
    if s != "" && IsSpace(s[0]) then TrimLeft(s[1..]) else s
  }

  function TrimRight(s: string): (r: string)
    ensures |r| <= |s| && r == s[..|r|]
    ensures r == "" <==> Blank(s)
    ensures r != "" ==> !IsSpace(r[|r| - 1])
  {
    if s != "" && IsSpace(s[|s| - 1]) then TrimRight(s[..|s| - 1]) else s
  }

  /** `r` is `s` without blanks around it: a piece of `s`, blank before and blank after, that neither starts
      nor ends with a blank. */
  ghost predicate TrimmedText(s: string, r: string) {
    && (r != "" ==> !IsSpace(r[0]) && !IsSpace(r[|r| - 1]))
    && exists i, j :: PieceBetweenBlanks(s, r, i, j)
  }

  ghost predicate PieceBetweenBlanks(s: string, r: string, i: nat, j: nat) {
    i <= j <= |s| && r == s[i..j] && Blank(s[..i]) && Blank(s[j..])
  }

  lemma {:induction false} TrimLeftDropsBlanks(s: string)
    ensures Blank(s[..|s| - |TrimLeft(s)|])
  {
    if s != "" && IsSpace(s[0]) {
      TrimLeftDropsBlanks(s[1..]);
      var k := |s| - |TrimLeft(s)|;
      assert s[..k] == [s[0]] + s[1..][..k - 1];
    }
  }

  lemma {:induction false} TrimRightDropsBlanks(s: string)
    ensures Blank(s[|TrimRight(s)|..])
  {
    if s != "" && IsSpace(s[|s| - 1]) {
      var init := s[..|s| - 1];
      TrimRightDropsBlanks(init);
      assert s[|TrimRight(s)|..] == init[|TrimRight(init)|..] + [s[|s| - 1]];
    }
  }

  lemma TrimmedBothEnds(s: string)
    ensures TrimmedText(s, TrimRight(TrimLeft(s)))
  {
    var left := TrimLeft(s);
    var r := TrimRight(left);
    var i := |s| - |left|;
    TrimLeftDropsBlanks(s);
    TrimRightDropsBlanks(left);
    assert s[i..i + |r|] == left[..|r|] == r;
    assert s[i + |r|..] == left[|r|..];
    assert PieceBetweenBlanks(s, r, i, i + |r|);
  }

  /** Trimming takes the blanks off both ends and nothing else. */
  function TrimSpace(s: string): (r: string)
    ensures r == "" <==> Blank(s)
    ensures TrimmedText(s, r)
  {
    TrimmedBothEnds(s);
    TrimRight(TrimLeft(s))
  }

  lemma PieceUnique(s: string, i: nat, j: nat, k: nat, l: nat)
    requires i < j <= |s| && k < l <= |s|
    requires !IsSpace(s[i]) && !IsSpace(s[j - 1]) && !IsSpace(s[k]) && !IsSpace(s[l - 1])
    requires Blank(s[..i]) && Blank(s[j..]) && Blank(s[..k]) && Blank(s[l..])
    ensures i == k && j == l
  {
  }

  lemma BlankPiece(s: string, i: nat, j: nat)
    requires i <= j <= |s| && Blank(s[..i]) && Blank(s[j..]) && Blank(s[i..j])
    ensures Blank(s)
  {
    assert s == s[..i] + s[i..j] + s[j..];
  }

  /** There is only one way to trim a text. */
  lemma TrimmedUnique(s: string, r: string, q: string)
    requires TrimmedText(s, r) && TrimmedText(s, q)
    ensures r == q
  {
    var i: nat, j: nat :| PieceBetweenBlanks(s, r, i, j);
    var k: nat, l: nat :| PieceBetweenBlanks(s, q, k, l);
    if r == "" {
      BlankPiece(s, i, j);
    } else if q == "" {
      BlankPiece(s, k, l);
    } else {
      assert r[0] == s[i] && r[|r| - 1] == s[j - 1] && q[0] == s[k] && q[|q| - 1] == s[l - 1];
      PieceUnique(s, i, j, k, l);
    }
  }

  /** Text without blanks around it comes back unchanged. */
  lemma TrimSpaceKeeps(s: string)
    requires s == "" || (!IsSpace(s[0]) && !IsSpace(s[|s| - 1]))
    ensures TrimSpace(s) == s
  {
    assert PieceBetweenBlanks(s, s, 0, |s|);
    TrimmedUnique(s, TrimSpace(s), s);
  }

  /** The parts with `sep` between neighbours. */
  function Join(parts: seq<string>, sep: string): string {
    if parts == [] then ""
    else if |parts| == 1 then parts[0]
    else parts[0] + sep + Join(parts[1..], sep)
  }

  /** A single part is its own join, and the separator stands wherever the parts are divided. */
  lemma {:induction false} JoinDivided(parts: seq<string>, sep: string, k: nat)
    requires 0 < k < |parts|
    ensures Join(parts, sep) == Join(parts[..k], sep) + sep + Join(parts[k..], sep)
    ensures Join([parts[0]], sep) == parts[0]
  {
    if k > 1 {
      JoinDivided(parts[1..], sep, k - 1);
      assert parts[1..][..k - 1] == parts[..k][1..] && parts[1..][k - 1..] == parts[k..];
    } else {
      assert parts[..1] == [parts[0]];
    }
  }
}
