/** HTML escaping of player names, options and sayings before they are put
    into markup. */
module Html {

  /** The entity for each of the five special characters; any other character
      stands for itself. */
  function EscapeChar(c: char): string
  {
    if c == '&' then "&amp;"
    else if c == '<' then "&lt;"
    else if c == '>' then "&gt;"
    else if c == '"' then "&quot;"
    else if c == '\'' then "&#039;"
    else [c]
  }

  predicate IsSpecial(c: char)
  {
    c == '&' || c == '<' || c == '>' || c == '"' || c == '\''
  }

  /** escapeHtml: every special character replaced by its entity. The result
      holds no raw angle bracket or quote. */
  function EscapeHtml(s: string): (r: string)
    ensures forall i :: 0 <= i < |r| ==> r[i] != '<' && r[i] != '>' && r[i] != '"' && r[i] != '\''
    ensures |r| >= |s|
  {
    if s == [] then [] else EscapeChar(s[0]) + EscapeHtml(s[1..])
  }

  /** Reads the five entities back; the reference that escaping is checked against. */
  function Unescape(t: string): string
  {
    if t == [] then []
    else if |t| >= 5 && t[..5] == "&amp;" then "&" + Unescape(t[5..])
    else if |t| >= 4 && t[..4] == "&lt;" then "<" + Unescape(t[4..])
    else if |t| >= 4 && t[..4] == "&gt;" then ">" + Unescape(t[4..])
    else if |t| >= 6 && t[..6] == "&quot;" then "\"" + Unescape(t[6..])
    else if |t| >= 6 && t[..6] == "&#039;" then "'" + Unescape(t[6..])
    else [t[0]] + Unescape(t[1..])
  }

  lemma UnescapeEntity(e: string, c: char, rest: string)
    requires e == EscapeChar(c)
    ensures Unescape(e + rest) == [c] + Unescape(rest)
  {
    var t := e + rest;
    assert t[..|e|] == e && t[|e|..] == rest;
    if IsSpecial(c) {
      // entities differ from each other in their second character
      assert t[..4][1] == e[1];
      assert |t| >= 5 ==> t[..5][1] == e[1];
      assert |t| >= 6 ==> t[..6][1] == e[1];
    } else {
      assert t[0] == c && t[1..] == rest;
      assert |t| >= 4 ==> t[..4][0] == c;
      assert |t| >= 5 ==> t[..5][0] == c;
      assert |t| >= 6 ==> t[..6][0] == c;
    }
  }

  /** Escaping loses nothing: reading the entities back gives the original text. */
  lemma {:induction false} EscapeRoundTrip(s: string)
    ensures Unescape(EscapeHtml(s)) == s
  {
    if s != [] {
      UnescapeEntity(EscapeChar(s[0]), s[0], EscapeHtml(s[1..]));
      EscapeRoundTrip(s[1..]);
    }
  }

  /** Escaping works character by character. */
  lemma {:induction false} EscapeAppend(a: string, b: string)
    ensures EscapeHtml(a + b) == EscapeHtml(a) + EscapeHtml(b)
  {
    if a == [] {
      assert a + b == b;
    } else {
      assert (a + b)[1..] == a[1..] + b;
      EscapeAppend(a[1..], b);
    }
  }

  /** Text without special characters is left unchanged. */
  lemma {:induction false} EscapePlainText(s: string)
    requires forall i :: 0 <= i < |s| ==> !IsSpecial(s[i])
    ensures EscapeHtml(s) == s
  {
    if s != [] {
      EscapePlainText(s[1..]);
    }
  }
}
