/** Go's strings.TrimSpace and strings.Split, and the province-code normaliser
    that the spend path and the derby path each run on their own. */
module Text {

  // unicode.IsSpace
  predicate IsSpace(c: char) {
    || '\t' <= c <= '\r'
    || c == ' ' || c == '\U{0085}' || c == '\U{00A0}' || c == '\U{1680}'
    || '\U{2000}' <= c <= '\U{200A}'
    || c == '\U{2028}' || c == '\U{2029}' || c == '\U{202F}' || c == '\U{205F}' || c == '\U{3000}'
  }

  function TrimLeft(s: string): string {
    if s != [] && IsSpace(s[0]) then TrimLeft(s[1..]) else s
  }

  function TrimRight(s: string): string {
    if s != [] && IsSpace(s[|s| - 1]) then TrimRight(s[..|s| - 1]) else s
  }

  function TrimSpace(s: string): string {
    TrimRight(TrimLeft(s))
  }

  // Nothing left for TrimSpace to remove.
  predicate Trimmed(s: string) {
    s != [] ==> !IsSpace(s[0]) && !IsSpace(s[|s| - 1])
  }

  lemma {:induction false} TrimRightEnds(s: string)
    ensures TrimRight(s) <= s
    ensures TrimRight(s) != [] ==> !IsSpace(TrimRight(s)[|TrimRight(s)| - 1])
  {
    if s != [] && IsSpace(s[|s| - 1]) { TrimRightEnds(s[..|s| - 1]); }
  }

  lemma {:induction false} TrimLeftStarts(s: string)
    ensures TrimLeft(s) != [] ==> !IsSpace(TrimLeft(s)[0])
  {
    if s != [] && IsSpace(s[0]) { TrimLeftStarts(s[1..]); }
  }

  lemma TrimSpaceTrims(s: string)
    ensures Trimmed(TrimSpace(s))
  {
    TrimLeftStarts(s);
    TrimRightEnds(TrimLeft(s));
  }

  // A single digit, blanks around it aside, gets a leading zero; "0" and any other text are kept.
  lemma NormalizeIlCodeMeaning(raw: string)
    ensures forall d :: d in "123456789" && TrimSpace(raw) == [d] ==> NormalizeIlCode(raw) == ['0', d]
    ensures (forall d :: d in "123456789" ==> TrimSpace(raw) != [d]) ==> NormalizeIlCode(raw) == TrimSpace(raw)
  {
    var s := TrimSpace(raw);
    if |s| == 1 && '1' <= s[0] <= '9' {
      assert s == [s[0]] && s[0] in "123456789";
    }
  }

  // Trimming takes blanks off both ends and nothing else.
  lemma TrimSpaceMeaning(s: string)
    ensures Trimmed(TrimSpace(s))
    ensures exists i, j :: 0 <= i <= j <= |s| && TrimSpace(s) == s[i..j] && BlankOutside(s, i, j)
  {
    TrimSpaceTrims(s);
    var i := TrimLeftDrops(s);
    var j := TrimRightDrops(s[i..]);
    assert TrimSpace(s) == s[i..i + j];
    assert forall k :: i + j <= k < |s| ==> s[k] == s[i..][k - i];
  }

  predicate BlankOutside(s: string, i: nat, j: nat) {
    forall k :: 0 <= k < |s| && (k < i || j <= k) ==> IsSpace(s[k])
  }

  lemma {:induction false} TrimLeftDrops(s: string) returns (i: nat)
    ensures i <= |s| && TrimLeft(s) == s[i..] && forall k :: 0 <= k < i ==> IsSpace(s[k])
  {
    i := 0;
    if s != [] && IsSpace(s[0]) {
      var n := TrimLeftDrops(s[1..]);
      i := n + 1;
      assert s[1..][n..] == s[i..];
      assert forall k :: 1 <= k < i ==> s[k] == s[1..][k - 1];
    }
  }

  lemma {:induction false} TrimRightDrops(s: string) returns (j: nat)
    ensures j <= |s| && TrimRight(s) == s[..j] && forall k :: j <= k < |s| ==> IsSpace(s[k])
  {
    j := |s|;
    if s != [] && IsSpace(s[|s| - 1]) {
      j := TrimRightDrops(s[..|s| - 1]);
      assert s[..|s| - 1][..j] == s[..j];
      assert forall k :: 0 <= k < |s| - 1 ==> s[k] == s[..|s| - 1][k];
    } else {
      assert s[..|s|] == s;
    }
  }

  // The white space of Unicode.
  lemma SpacesAre(c: char)
    ensures var spaces := {9, 10, 11, 12, 13, 32, 0x85, 0xA0, 0x1680, 0x2000, 0x2001, 0x2002, 0x2003, 0x2004, 0x2005,
                           0x2006, 0x2007, 0x2008, 0x2009, 0x200A, 0x2028, 0x2029, 0x202F, 0x205F, 0x3000};
      IsSpace(c) <==> c as int in spaces
  {
  }

  predicate IsDigit(c: char) { '0' <= c <= '9' }

  // The text of an id: never empty, and without blanks.
  function IdText(id: nat): (s: string)
    ensures s != "" && forall i :: 0 <= i < |s| ==> IsDigit(s[i])
  {
    var digit := [('0' as int + id % 10) as char];
    if id < 10 then digit else IdText(id / 10) + digit
  }

  // support/spend.go and derby/service.go each carry a copy of this function.
  function NormalizeIlCode(raw: string): string {
    var s := TrimSpace(raw);
    if |s| == 1 && '1' <= s[0] <= '9' then "0" + s else s
  }

  // The spend path hands its normalised code to the derby resolver, which
  // normalises it again: both must look at the same city.
  lemma NormalizeIlCodeIdempotent(raw: string)
    ensures NormalizeIlCode(NormalizeIlCode(raw)) == NormalizeIlCode(raw)
  {
    TrimSpaceTrims(raw);
    var s := TrimSpace(raw);
    if |s| == 1 && '1' <= s[0] <= '9' {
      assert Trimmed("0" + s);
    }
  }

  // Different ids have different texts.
  lemma {:induction false} IdTextInjective(a: nat, b: nat)
    requires IdText(a) == IdText(b)
    ensures a == b
  {
    var s, t := IdText(a), IdText(b);
    assert s[|s| - 1] as int == '0' as int + a % 10 && t[|t| - 1] as int == '0' as int + b % 10;
    if a >= 10 && b >= 10 {
      assert s[..|s| - 1] == IdText(a / 10) && t[..|t| - 1] == IdText(b / 10);
      IdTextInjective(a / 10, b / 10);
    }
  }

  // strings.Split with a one-character separator: never empty.
  function Split(s: string, sep: char): (parts: seq<string>)
    ensures |parts| >= 1
  {
    if s == [] then [[]] else Prepend(s[0], sep, Split(s[1..], sep))
  }

  // The parts of a text with one more character in front.
  function Prepend(c: char, sep: char, parts: seq<string>): (all: seq<string>)
    requires parts != []
    ensures all != []
  {
    if c == sep then [[]] + parts else [[c] + parts[0]] + parts[1..]
  }

  lemma PrependConcat(c: char, sep: char, a: seq<string>, b: seq<string>)
    requires a != []
    ensures Prepend(c, sep, a + b) == Prepend(c, sep, a) + b
  {
  }

  lemma {:induction false} SplitConcat(a: string, b: string, sep: char)
    ensures Split(a + [sep] + b, sep) == Split(a, sep) + Split(b, sep)
  {
    hide Prepend;
    var s := a + [sep] + b;
    if a == [] {
      assert s[1..] == b;
      PrependSeparator(sep, Split(b, sep));
    } else {
      SplitConcat(a[1..], b, sep);
      assert s[1..] == a[1..] + [sep] + b;
      assert s[0] == a[0];
      PrependConcat(a[0], sep, Split(a[1..], sep), Split(b, sep));
    }
  }

  lemma PrependSeparator(sep: char, parts: seq<string>)
    requires parts != []
    ensures Prepend(sep, sep, parts) == [[]] + parts
  {
  }

  function Join(parts: seq<string>, sep: char): string
    requires parts != []
  {
    if |parts| == 1 then parts[0] else parts[0] + [sep] + Join(parts[1..], sep)
  }

  // Splitting keeps every character, and no part holds the separator.
  lemma {:induction false} SplitMeaning(s: string, sep: char)
    ensures Join(Split(s, sep), sep) == s
    ensures forall i :: 0 <= i < |Split(s, sep)| ==> sep !in Split(s, sep)[i]
  {
    if s != [] {
      var rest := Split(s[1..], sep);
      SplitMeaning(s[1..], sep);
      assert s == [s[0]] + s[1..];
      if s[0] == sep {
        assert ([[]] + rest)[1..] == rest;
      } else {
        var head := [s[0]] + rest[0];
        assert ([head] + rest[1..])[1..] == rest[1..];
        assert Join([head] + rest[1..], sep) == [s[0]] + Join(rest, sep);
      }
    }
  }
}
