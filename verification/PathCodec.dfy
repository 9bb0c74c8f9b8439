/** A codec that meets what the route theorems ask of percent-encoding: it escapes slashes and percent signs. */
module PathCodec {
  import opened PathText
  import opened RouteTable

  function EscapedChar(c: char): string {
    if c == '/' then "%2F" else if c == '%' then "%25" else [c]
  }

  function Escape(text: string): string {
    if text == "" then "" else EscapedChar(text[0]) + Escape(text[1..])
  }

  function Unescape(text: string): string {
    if text == "" then ""
    else if "%2F" <= text then "/" + Unescape(text[3..])
    else if "%25" <= text then "%" + Unescape(text[3..])
    else [text[0]] + Unescape(text[1..])
  }

  lemma UnescapeFirst(c: char, rest: string)
    ensures Unescape(EscapedChar(c) + rest) == [c] + Unescape(rest)
  {
    var text := EscapedChar(c) + rest;
    if c == '/' {
      assert text[..3] == "%2F" && text[3..] == rest;
    } else if c == '%' {
      assert text[..3] == "%25" && text[2] == '5' && text[3..] == rest;
    } else {
      assert text[0] == c && text[1..] == rest;
    }
  }

  lemma {:induction false} Unescapes(text: string)
    ensures Unescape(Escape(text)) == text
    ensures '/' !in Escape(text)
  {
    if text != "" {
      Unescapes(text[1..]);
      UnescapeFirst(text[0], Escape(text[1..]));
      assert text == [text[0]] + text[1..];
    }
  }

  lemma {:induction false} UnreservedKept(text: string)
    requires Unreserved(text)
    ensures Escape(text) == text
  {
    if text != "" {
      UnreservedKept(text[1..]);
      assert text == [text[0]] + text[1..];
    }
  }

  lemma UnescapeDots()
    ensures Unescape("") == "" && Unescape(".") == "." && Unescape("..") == ".."
  {
    UnescapeFirst('.', "");
    UnescapeFirst('.', ".");
    assert "." == EscapedChar('.') + "" && ".." == EscapedChar('.') + ".";
  }

  lemma NamedEscaped(text: string)
    requires Named(text)
    ensures Named(Escape(text))
  {
    Unescapes(text);
    UnescapeDots();
  }

  /** So the assumption of the route theorems can be met. */
  lemma GoodCodecExists()
    ensures GoodCodec(Codec(Escape, Unescape))
  {
    forall s: string ensures Unescape(Escape(s)) == s && '/' !in Escape(s) {
      Unescapes(s);
    }
    forall s: string | Named(s) ensures Named(Escape(s)) {
      NamedEscaped(s);
    }
    forall s: string | Unreserved(s) ensures Escape(s) == s {
      UnreservedKept(s);
    }
  }
}
