/** The credentials of a SOCKS5 outbound link, percent-encoded as sections 2.1 and 2.3 of RFC 3986 lay down. */
module Userinfo {
  import opened Core

  datatype ConfigError = TooLong | HalfSet

  predicate Unreserved(c: char) {
    'A' <= c <= 'Z' || 'a' <= c <= 'z' || '0' <= c <= '9' || c == '-' || c == '_' || c == '.' || c == '~'
  }

  /** What one byte becomes: an unreserved character stands for itself. */
  function Piece(b: byte): string {
    if b < 128 && Unreserved(b as char) then [b as char] else ['%', HexDigit(b / 16, 'A'), HexDigit(b % 16, 'A')]
  }

  function Encoded(value: seq<byte>): string {
    if value == [] then [] else Piece(value[0]) + Encoded(value[1..])
  }

  method PercentEncode(value: seq<byte>) returns (text: string)
    ensures text == Encoded(value)
  {
    text := [];
    ghost var rest := value;
    for i := 0 to |value|
      invariant rest == value[i..]
      invariant text + Encoded(rest) == Encoded(value)
    {
      ConcatAssociative(text, Piece(value[i]), Encoded(rest[1..]));
      text := text + Piece(value[i]);
      rest := rest[1..];
    }
    ConcatEmpty(text);
  }

  /** Every other byte is a percent sign and two hexadecimal digits, capital ones. */
  lemma {:induction false} PieceMeans(b: byte)
    ensures
      if 'A' as int <= b <= 'Z' as int || 'a' as int <= b <= 'z' as int || '0' as int <= b <= '9' as int
         || b in {'-' as int, '_' as int, '.' as int, '~' as int}
      then Piece(b) == [b as char]
      else |Piece(b)| == 3 && Piece(b)[0] == '%' && Capital(Piece(b)[1]) && Capital(Piece(b)[2])
  {
    assert HexValue(HexDigit(b / 16, 'A')) == Some(b / 16) && HexValue(HexDigit(b % 16, 'A')) == Some(b % 16);
  }

  predicate Capital(c: char) {
    '0' <= c <= '9' || 'A' <= c <= 'F'
  }

  // ---------------------------------------------------------------- reading it back

  /** A percent-decoder for text that is ASCII apart from its escapes. */
  function Decoded(text: string): Option<seq<byte>> {
    if text == [] then Some([])
    else if text[0] == '%' then
      if |text| < 3 || HexValue(text[1]).None? || HexValue(text[2]).None? then None
      else
        var rest := Decoded(text[3..]);
        if rest.None? then None
        else Some([HexValue(text[1]).value * 16 + HexValue(text[2]).value] + rest.value)
    else if text[0] as int >= 128 then None
    else
      var rest := Decoded(text[1..]);
      if rest.None? then None else Some([text[0] as int] + rest.value)
  }

  lemma {:induction false} PieceDecodes(b: byte, rest: string)
    ensures Decoded(Piece(b) + rest) == if Decoded(rest).None? then None else Some([b] + Decoded(rest).value)
  {
    var text := Piece(b) + rest;
    if b < 128 && Unreserved(b as char) {
      assert text[1..] == rest;
    } else {
      assert text[3..] == rest;
      assert HexValue(text[1]) == Some(b / 16) && HexValue(text[2]) == Some(b % 16);
    }
  }

  /** Decoding gives back exactly the bytes that were encoded. */
  lemma {:induction false} EncodedDecodes(value: seq<byte>)
    ensures Decoded(Encoded(value)) == Some(value)
  {
    if value != [] {
      EncodedDecodes(value[1..]);
      PieceDecodes(value[0], Encoded(value[1..]));
      assert [value[0]] + value[1..] == value;
    }
  }

  /** Encoded text is made of unreserved characters and percent signs. */
  lemma {:induction false} EncodedAlphabet(value: seq<byte>, i: nat)
    requires i < |Encoded(value)|
    ensures Unreserved(Encoded(value)[i]) || Encoded(value)[i] == '%'
  {
    var n := |Piece(value[0])|;
    if i >= n {
      EncodedAlphabet(value[1..], i - n);
    }
  }

  // ---------------------------------------------------------------- the user information of a link

  /** The text before and after the first separator. */
  function SplitAt(text: string, separator: char): Option<(string, string)> {
    if text == [] then None
    else if text[0] == separator then Some(([], text[1..]))
    else
      var rest := SplitAt(text[1..], separator);
      if rest.None? then None else Some(([text[0]] + rest.value.0, rest.value.1))
  }

  lemma {:induction false} SplitsThere(before: string, separator: char, after: string)
    requires separator !in before
    ensures SplitAt(before + [separator] + after, separator) == Some((before, after))
  {
    var text := before + [separator] + after;
    if before == [] {
      assert text[1..] == after;
    } else {
      SplitsThere(before[1..], separator, after);
      assert text[1..] == before[1..] + [separator] + after;
      assert [before[0]] + before[1..] == before;
    }
  }

  function Credentials(username: seq<byte>, password: seq<byte>): Result<string, ConfigError> {
    if |username| > 255 || |password| > 255 then Err(TooLong)
    else if username == [] && password == [] then Ok("")
    else if username != [] && password != [] then Ok(Encoded(username) + ":" + (Encoded(password) + "@"))
    else Err(HalfSet)
  }

  /** How a link is read: the user information ends at the first `@`, the name in it at the first `:`. */
  function ReadCredentials(link: string): Option<(seq<byte>, seq<byte>, string)> {
    var outer := SplitAt(link, '@');
    if outer.None? then None
    else
      var inner := SplitAt(outer.value.0, ':');
      if inner.None? then None
      else
        var name, secret := Decoded(inner.value.0), Decoded(inner.value.1);
        if name.None? || secret.None? then None else Some((name.value, secret.value, outer.value.1))
  }

  /** Whatever bytes the credentials hold, a link that carries them is read back as them and the rest. */
  lemma {:induction false} CredentialsRead(username: seq<byte>, password: seq<byte>, rest: string)
    requires Credentials(username, password).Ok? && Credentials(username, password).value != ""
    ensures ReadCredentials(Credentials(username, password).value + rest) == Some((username, password, rest))
  {
    var name, secret := Encoded(username), Encoded(password);
    EncodedDecodes(username);
    EncodedDecodes(password);
    NoSeparator(username);
    NoSeparator(password);
    SplitsThere(name, ':', secret);
    var inner := name + [':'] + secret;
    SplitsThere(inner, '@', rest);
    assert Credentials(username, password).value + rest == inner + ['@'] + rest;
  }

  lemma {:induction false} NoSeparator(value: seq<byte>)
    ensures ':' !in Encoded(value) && '@' !in Encoded(value)
  {
    forall i | 0 <= i < |Encoded(value)| ensures Encoded(value)[i] != ':' && Encoded(value)[i] != '@' {
      EncodedAlphabet(value, i);
    }
  }

  /**
    * A link carries credentials exactly when both are set and neither is over 255 bytes; it carries none when
    * neither is set, and every other choice is an error, the length being looked at first.
    */
  lemma {:induction false} CredentialsCarried(username: seq<byte>, password: seq<byte>)
    ensures Credentials(username, password).Ok? && Credentials(username, password).value != ""
       <==> 0 < |username| <= 255 && 0 < |password| <= 255
    ensures Credentials(username, password) == Ok("") <==> username == [] && password == []
    ensures Credentials(username, password) == Err(TooLong) <==> |username| > 255 || |password| > 255
  {
  }
}
