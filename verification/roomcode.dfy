/** Room codes: the normalisation applied to a typed code before joining, and
    the generator that draws a fresh code when a room is created. */
module RoomCode {

  /** 32 symbols, without the look-alikes 0/O and 1/I. */
  const ALPHABET: string := "ABCDEFGHJKLMNPQRSTUVWXYZ23456789"
  const CODE_LENGTH: nat := 6

  /** The white space that String.prototype.trim removes (ASCII part). */
  predicate IsSpace(c: char)
  {
    c == ' ' || c == '\t' || c == '\n' || c == '\r' || c == '\U{000B}' || c == '\U{000C}'
  }

  /** The characters that survive the filter /[^A-Z0-9]/. */
  predicate IsCodeChar(c: char)
  {
    'A' <= c <= 'Z' || '0' <= c <= '9'
  }

  function UpperChar(c: char): char
  {
    if 'a' <= c <= 'z' then (c as int - 'a' as int + 'A' as int) as char else c
  }

  function TrimStart(s: string): string
  {
    if s != [] && IsSpace(s[0]) then TrimStart(s[1..]) else s
  }

  function TrimEnd(s: string): string
  {
    if s != [] && IsSpace(s[|s| - 1]) then TrimEnd(s[..|s| - 1]) else s
  }

  function Trim(s: string): string
  {
    TrimEnd(TrimStart(s))
  }

  function Upper(s: string): string
  {
    seq(|s|, i requires 0 <= i < |s| => UpperChar(s[i]))
  }

  /** Removes every character outside A-Z and 0-9. */
  function KeepCodeChars(s: string): string
  {
    if s == [] then [] else (if IsCodeChar(s[0]) then [s[0]] else []) + KeepCodeChars(s[1..])
  }

  function Take(s: string, n: nat): string
  {
    if |s| <= n then s else s[..n]
  }

  /** normCode: trim, upper-case, keep A-Z and 0-9, cut to six characters. */
  function NormCode(s: string): (r: string)
    ensures |r| <= CODE_LENGTH
    ensures forall i :: 0 <= i < |r| ==> IsCodeChar(r[i])
  {
    KeepCodedAreCodeChars(Upper(Trim(s)));
    Take(KeepCodeChars(Upper(Trim(s))), CODE_LENGTH)
  }

  lemma {:induction false} KeepCodedAreCodeChars(s: string)
    ensures forall i :: 0 <= i < |KeepCodeChars(s)| ==> IsCodeChar(KeepCodeChars(s)[i])
  {
    if s != [] {
      KeepCodedAreCodeChars(s[1..]);
    }
  }

  predicate AllCodeChars(s: string)
  {
    forall i :: 0 <= i < |s| ==> IsCodeChar(s[i])
  }

  lemma {:induction false} KeepCodeCharsKeepsCodes(s: string)
    requires AllCodeChars(s)
    ensures KeepCodeChars(s) == s
  {
    if s != [] {
      KeepCodeCharsKeepsCodes(s[1..]);
    }
  }

  lemma {:induction false} KeepCodeCharsAppend(a: string, b: string)
    ensures KeepCodeChars(a + b) == KeepCodeChars(a) + KeepCodeChars(b)
  {
    if a == [] {
      assert a + b == b;
    } else {
      assert (a + b)[1..] == a[1..] + b;
      KeepCodeCharsAppend(a[1..], b);
    }
  }

  /** Trimming the start only removes a run of white space. */
  lemma {:induction false} TrimStartSplits(s: string) returns (k: nat)
    ensures k <= |s| && TrimStart(s) == s[k..]
    ensures forall i :: 0 <= i < k ==> IsSpace(s[i])
  {
    if s != [] && IsSpace(s[0]) {
      var k' := TrimStartSplits(s[1..]);
      k := k' + 1;
      assert s[1..][k'..] == s[k..];
      forall i | 0 <= i < k ensures IsSpace(s[i]) {
        if i > 0 { assert s[i] == s[1..][i - 1]; }
      }
    } else {
      k := 0;
    }
  }

  /** Trimming the end only removes a run of white space. */
  lemma {:induction false} TrimEndSplits(s: string) returns (k: nat)
    ensures k <= |s| && TrimEnd(s) == s[..k]
    ensures forall i :: k <= i < |s| ==> IsSpace(s[i])
  {
    if s != [] && IsSpace(s[|s| - 1]) {
      var t := s[..|s| - 1];
      k := TrimEndSplits(t);
      assert t[..k] == s[..k];
      forall i | k <= i < |s| ensures IsSpace(s[i]) {
        if i < |s| - 1 { assert s[i] == t[i]; }
      }
    } else {
      k := |s|;
    }
  }

  /** A string of white space has no code character, even upper-cased. */
  lemma {:induction false} SpacesVanish(s: string)
    requires forall i :: 0 <= i < |s| ==> IsSpace(s[i])
    ensures KeepCodeChars(Upper(s)) == []
  {
    if s != [] {
      assert Upper(s)[1..] == Upper(s[1..]);
      SpacesVanish(s[1..]);
    }
  }

  lemma UpperAppend(a: string, b: string)
    ensures Upper(a + b) == Upper(a) + Upper(b)
  {
  }

  /** Trimming is redundant: white space anywhere in the typed code is dropped
      by the character filter anyway, so only the filter and the cut matter. */
  lemma TrimIsRedundant(s: string)
    ensures NormCode(s) == Take(KeepCodeChars(Upper(s)), CODE_LENGTH)
  {
    var k := TrimStartSplits(s);
    var m := s[k..];
    var j := TrimEndSplits(m);
    var front, mid, back := s[..k], m[..j], m[j..];
    assert s == front + mid + back;
    assert Trim(s) == mid;
    assert forall i :: 0 <= i < |back| ==> IsSpace(back[i]) by {
      forall i | 0 <= i < |back| ensures IsSpace(back[i]) { assert back[i] == m[j + i]; }
    }
    SpacesVanish(front);
    SpacesVanish(back);
    calc {
      KeepCodeChars(Upper(s));
      { UpperAppend(front + mid, back); UpperAppend(front, mid); }
      KeepCodeChars(Upper(front) + Upper(mid) + Upper(back));
      { KeepCodeCharsAppend(Upper(front) + Upper(mid), Upper(back)); }
      KeepCodeChars(Upper(front) + Upper(mid)) + KeepCodeChars(Upper(back));
      { KeepCodeCharsAppend(Upper(front), Upper(mid)); }
      KeepCodeChars(Upper(front)) + KeepCodeChars(Upper(mid)) + KeepCodeChars(Upper(back));
      KeepCodeChars(Upper(mid));
    }
  }

  /** A code of at most six characters from A-Z and 0-9 is left as it is. */
  lemma NormCodeFixesCodes(t: string)
    requires |t| <= CODE_LENGTH && AllCodeChars(t)
    ensures NormCode(t) == t
  {
    assert TrimStart(t) == t;
    assert TrimEnd(t) == t;
    assert Upper(t) == t;
    KeepCodeCharsKeepsCodes(t);
  }

  /** Normalising twice is normalising once. */
  lemma NormCodeIdempotent(s: string)
    ensures NormCode(NormCode(s)) == NormCode(s)
  {
    NormCodeFixesCodes(NormCode(s));
  }

  /** makeRoomCode: six draws, each an index into the alphabet; the draws
      stand for Math.floor(Math.random() * 32). */
  method MakeRoomCode(draws: seq<int>) returns (code: string)
    requires |draws| == CODE_LENGTH
    requires forall i :: 0 <= i < |draws| ==> 0 <= draws[i] < |ALPHABET|
    ensures |code| == CODE_LENGTH
    ensures forall i :: 0 <= i < CODE_LENGTH ==> code[i] == ALPHABET[draws[i]]
    ensures forall i :: 0 <= i < |code| ==> code[i] in ALPHABET
    ensures NormCode(code) == code
  {
    code := "";
    for i := 0 to CODE_LENGTH
      invariant |code| == i
      invariant forall j :: 0 <= j < i ==> code[j] == ALPHABET[draws[j]]
    {
      code := code + [ALPHABET[draws[i]]];
    }
    assert forall c :: c in ALPHABET ==> IsCodeChar(c);
    NormCodeFixesCodes(code);
  }
}
