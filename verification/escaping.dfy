/** `Query._escape`: backslash-escaping of the query-string metacharacters
    inside a quoted phrase. */
module Escaping {
  import opened Results

  /** The characters `_escape` prefixes with a backslash. */
  const Special: string := "+-&|!(){}[]^\"~*?:\\"

  predicate IsSpecial(c: char)
  {
    c in Special
  }

  /** How one character of the input appears in the output. */
  function EscapeChar(c: char): string
  {
    if IsSpecial(c) then ['\\', c] else [c]
  }

  /** Number of metacharacters in `s`. */
  function CountSpecial(s: string): nat
    decreases |s|
  {
    if |s| == 0 then 0 else (if IsSpecial(s[0]) then 1 else 0) + CountSpecial(s[1..])
  }

  /** `_escape(s)`: each metacharacter gets one backslash in front of it, the
      output grows by exactly one character per metacharacter. */
  function Escape(s: string): (r: string)
    ensures |r| == |s| + CountSpecial(s)
    decreases |s|
  {
    if |s| == 0 then "" else EscapeChar(s[0]) + Escape(s[1..])
  }

  /** The reading a query-string parser gives an escaped phrase: a backslash
      must be followed by a metacharacter, and a bare metacharacter is
      rejected. `None` means the text is not a well-formed escaped phrase. */
  function Unescape(s: string): (r: Option<string>)
    decreases |s|
  {
    if |s| == 0 then Some("")
    else if s[0] == '\\' then
      if |s| >= 2 && IsSpecial(s[1]) then
        match Unescape(s[2..])
        case Some(t) => Some([s[1]] + t)
        case None => None
      else None
    else if IsSpecial(s[0]) then None
    else
      match Unescape(s[1..])
      case Some(t) => Some([s[0]] + t)
      case None => None
  }

  /** Escaping is lossless: the parser reading of an escaped phrase is the
      original text, so no metacharacter survives unescaped. */
  lemma {:induction false} EscapeRoundTrip(s: string)
    ensures Unescape(Escape(s)) == Some(s)
    decreases |s|
  {
    if |s| > 0 {
      EscapeRoundTrip(s[1..]);
      var e := Escape(s);
      assert e == EscapeChar(s[0]) + Escape(s[1..]);
      if IsSpecial(s[0]) {
        assert e[2..] == Escape(s[1..]);
      } else {
        assert e[1..] == Escape(s[1..]);
      }
      assert [s[0]] + s[1..] == s;
    }
  }

  /** Text without metacharacters passes through unchanged, and only such text
      does. */
  lemma {:induction false} EscapeIdentityIffPlain(s: string)
    ensures Escape(s) == s <==> CountSpecial(s) == 0
    ensures CountSpecial(s) == 0 <==> forall i :: 0 <= i < |s| ==> !IsSpecial(s[i])
    decreases |s|
  {
    if |s| > 0 {
      EscapeIdentityIffPlain(s[1..]);
      if !IsSpecial(s[0]) {
        assert Escape(s) == [s[0]] + Escape(s[1..]);
        assert s == [s[0]] + s[1..];
        forall i | 0 < i < |s|
          ensures s[i] == s[1..][i - 1]
        {
        }
      }
    }
  }

  /** Escaping distributes over concatenation (it works character by
      character). */
  lemma {:induction false} EscapeAppend(a: string, b: string)
    ensures Escape(a + b) == Escape(a) + Escape(b)
    decreases |a|
  {
    if |a| > 0 {
      assert (a + b)[1..] == a[1..] + b;
      EscapeAppend(a[1..], b);
    } else {
      assert a + b == b;
    }
  }

  /** The character loop of `_escape`, computing the same string. */
  method EscapeLoop(s: string) returns (r: string)
    ensures r == Escape(s)
  {
    r := "";
    var i := 0;
    while i < |s|
      invariant 0 <= i <= |s|
      invariant r == Escape(s[..i])
    {
      var c := s[i];
      if IsSpecial(c) {
        r := r + "\\";
      }
      r := r + [c];
      EscapeAppend(s[..i], [c]);
      assert s[..i + 1] == s[..i] + [c];
      assert Escape([c]) == EscapeChar(c);
      i := i + 1;
    }
    assert s[..i] == s;
  }
}
