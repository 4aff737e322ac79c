/** The JSON log line: strings written with escapes, read back by section 7 of RFC 8259. */
module JsonLog {
  import opened Core

  predicate Control(c: char) {
    c as int < 0x20 || 0x7F <= c as int < 0xA0
  }

  /** Four hexadecimal digits. */
  function Hex4(n: nat): string
    requires n < 0x10000
  {
    [HexDigit(n / 4096, 'a'), HexDigit(n / 256 % 16, 'a'), HexDigit(n / 16 % 16, 'a'), HexDigit(n % 16, 'a')]
  }

  function Escape(c: char): string {
    if c == '\\' then "\\\\"
    else if c == '"' then "\\\""
    else if c == '\n' then "\\n"
    else if c == '\r' then "\\r"
    else if c == '\t' then "\\t"
    else if c == 8 as char then "\\b"
    else if c == 12 as char then "\\f"
    else if Control(c) then "\\u" + Hex4(c as int)
    else [c]
  }

  /** The escapes of a text, and then `tail`. */
  function EscapedThen(value: string, tail: string): string {
    if value == [] then tail else Escape(value[0]) + EscapedThen(value[1..], tail)
  }

  /** A JSON string, and then `tail`. */
  function QuotedThen(value: string, tail: string): string {
    ['"'] + EscapedThen(value, ['"'] + tail)
  }

  lemma {:induction false} EscapedConcat(value: string, tail: string, more: string)
    ensures EscapedThen(value, tail) + more == EscapedThen(value, tail + more)
  {
    if value != [] {
      EscapedConcat(value[1..], tail, more);
      ConcatAssociative(Escape(value[0]), EscapedThen(value[1..], tail), more);
    }
  }

  lemma {:induction false} QuotedConcat(value: string, tail: string, more: string)
    ensures QuotedThen(value, tail) + more == QuotedThen(value, tail + more)
  {
    EscapedConcat(value, ['"'] + tail, more);
    ConcatAssociative(['"'], tail, more);
    ConcatAssociative(['"'], EscapedThen(value, ['"'] + tail), more);
  }

  method PushJsonString(line: string, value: string) returns (longer: string)
    ensures longer == line + QuotedThen(value, [])
  {
    ghost var end, rest := ['"'] + [], value;
    longer := line + ['"'];
    ConcatAssociative(line, ['"'], EscapedThen(value, end));
    for i := 0 to |value|
      invariant rest == value[i..]
      invariant longer + EscapedThen(rest, end) == line + QuotedThen(value, [])
    {
      ConcatAssociative(longer, Escape(value[i]), EscapedThen(rest[1..], end));
      longer := longer + Escape(value[i]);
      rest := rest[1..];
    }
    ConcatEmpty(['"']);
    longer := longer + ['"'];
  }

  // ---------------------------------------------------------------- a reader of JSON strings

  /** The number that four hexadecimal digits make. */
  function Unit(text: string): (r: Option<nat>)
    ensures r.Some? ==> |text| >= 4 && r.value < 0x10000
  {
    if |text| < 4 then None
    else
      var a, b, c, d := HexValue(text[0]), HexValue(text[1]), HexValue(text[2]), HexValue(text[3]);
      if a.None? || b.None? || c.None? || d.None? then None
      else Some(a.value * 4096 + b.value * 256 + c.value * 16 + d.value)
  }

  datatype Token = Token(c: char, length: nat)

  /** The character that a backslash and what follows it stand for; surrogates come in pairs. */
  function ReadEscape(text: string): (r: Option<Token>)
    requires |text| >= 2
    ensures r.Some? ==> 2 <= r.value.length <= |text|
  {
    match text[1]
    case '"' => Some(Token('"', 2))
    case '\\' => Some(Token('\\', 2))
    case '/' => Some(Token('/', 2))
    case 'b' => Some(Token(8 as char, 2))
    case 'f' => Some(Token(12 as char, 2))
    case 'n' => Some(Token('\n', 2))
    case 'r' => Some(Token('\r', 2))
    case 't' => Some(Token('\t', 2))
    case 'u' =>
      var unit := Unit(text[2..]);
      if unit.None? then None
      else if unit.value < 0xD800 || unit.value >= 0xE000 then Some(Token(unit.value as char, 6))
      else if unit.value >= 0xDC00 || |text| < 12 || text[6] != '\\' || text[7] != 'u' then None
      else
        var low := Unit(text[8..]);
        if low.None? || low.value < 0xDC00 || low.value >= 0xE000 then None
        else Some(Token((0x10000 + (unit.value - 0xD800) * 0x400 + (low.value - 0xDC00)) as char, 12))
    case _ => None
  }

  /** Reads a string whose opening quote is behind us: its characters and the text after its closing quote. */
  function ReadString(text: string): (r: Option<(string, string)>)
    ensures r.Some? ==> |r.value.1| < |text|
    decreases |text|
  {
    if text == [] || text[0] as int < 0x20 then None
    else if text[0] == '"' then Some(([], text[1..]))
    else if text[0] != '\\' then Prepend(text[0], ReadString(text[1..]))
    else if |text| < 2 then None
    else
      var token := ReadEscape(text);
      if token.None? then None else Prepend(token.value.c, ReadString(text[token.value.length..]))
  }

  function Prepend(c: char, tail: Option<(string, string)>): Option<(string, string)> {
    if tail.None? then None else Some(([c] + tail.value.0, tail.value.1))
  }

  predicate SmallHex(c: char) {
    '0' <= c <= '9' || 'a' <= c <= 'f'
  }

  /** Which characters are written as themselves, with two characters, and by their number, in small letters. */
  lemma {:induction false} EscapeMeans(c: char)
    ensures |Escape(c)| ==
      if c in {'\\', '"', '\n', '\r', '\t', 8 as char, 12 as char} then 2
      else if c as int < 0x20 || 0x7F <= c as int < 0xA0 then 6
      else 1
    ensures |Escape(c)| == 1 ==> Escape(c) == [c]
    ensures |Escape(c)| == 6 ==> Escape(c)[..4] == "\\u00" && SmallHex(Escape(c)[4]) && SmallHex(Escape(c)[5])
  {
    if Control(c) {
      var n := c as int;
      assert n / 4096 == 0 && n / 256 == 0 && n / 16 < 16;
    }
  }

  lemma {:induction false} Hex4Reads(n: nat, rest: string)
    requires n < 0x100
    ensures Unit(Hex4(n) + rest) == Some(n)
  {
    assert n / 4096 == 0 && n / 256 == 0;
    assert HexValue(HexDigit(n / 16, 'a')) == Some(n / 16) && HexValue(HexDigit(n % 16, 'a')) == Some(n % 16);
  }

  /** The escapes of two characters. */
  lemma {:induction false} ShortEscapeReads(c: char, rest: string)
    requires |Escape(c)| == 2
    ensures ReadString(Escape(c) + rest) == Prepend(c, ReadString(rest))
  {
    var text := Escape(c) + rest;
    assert text[2..] == rest && text[0] == '\\' && text[1] == Escape(c)[1];
    assert ReadEscape(text) == Some(Token(c, 2));
  }

  /** The escapes by number. */
  lemma {:induction false} LongEscapeReads(c: char, rest: string)
    requires Control(c) && Escape(c) == "\\u" + Hex4(c as int)
    ensures ReadString(Escape(c) + rest) == Prepend(c, ReadString(rest))
  {
    var text := Escape(c) + rest;
    Hex4Reads(c as int, rest);
    assert text[2..] == Hex4(c as int) + rest;
    assert text[6..] == rest && text[0] == '\\' && text[1] == 'u';
    assert ReadEscape(text) == Some(Token(c, 6));
  }

  lemma {:induction false} EscapeReads(c: char, rest: string)
    ensures ReadString(Escape(c) + rest) == Prepend(c, ReadString(rest))
  {
    if Escape(c) == [c] {
      Behind(c, rest);
    } else if |Escape(c)| == 2 {
      ShortEscapeReads(c, rest);
    } else {
      LongEscapeReads(c, rest);
    }
  }

  /** Reading a written string gives back the text, and stops right behind it. */
  lemma {:induction false} QuotedReads(value: string, rest: string)
    ensures QuotedThen(value, rest)[0] == '"'
    ensures ReadString(QuotedThen(value, rest)[1..]) == Some((value, rest))
  {
    EscapedReads(value, rest);
    Behind('"', EscapedThen(value, ['"'] + rest));
  }

  lemma {:induction false} EscapedReads(value: string, rest: string)
    ensures ReadString(EscapedThen(value, ['"'] + rest)) == Some((value, rest))
  {
    if value == [] {
      Behind('"', rest);
    } else {
      EscapedReads(value[1..], rest);
      EscapeReads(value[0], EscapedThen(value[1..], ['"'] + rest));
      FirstAndRest(value);
    }
  }

  lemma {:induction false} Behind(c: char, rest: string)
    ensures ([c] + rest)[0] == c && ([c] + rest)[1..] == rest
  {
  }

  // ---------------------------------------------------------------- the line

  datatype Level = NoLevel | Trace | Debug | Info | Warn | Error | Fatal | Panic

  function LevelLabel(level: Level): string {
    match level
    case NoLevel => ""
    case Trace => "trace"
    case Debug => "debug"
    case Info => "info"
    case Warn => "warn"
    case Error => "error"
    case Fatal => "fatal"
    case Panic => "panic"
  }

  datatype LogEvent = LogEvent(level: Level, caller: Option<string>, timestamp: Option<string>, message: string)

  datatype Member = Member(key: string, value: string)

  function MemberThen(member: Member, tail: string): string {
    QuotedThen(member.key, [':'] + QuotedThen(member.value, tail))
  }

  /** Members with commas between them, and then `tail`. */
  function MembersThen(members: seq<Member>, tail: string): string
    requires members != []
  {
    if |members| == 1 then MemberThen(members[0], tail)
    else MemberThen(members[0], [','] + MembersThen(members[1..], tail))
  }

  /** An object on a line of its own. */
  function Line(members: seq<Member>): string
    requires members != []
  {
    ['{'] + MembersThen(members, ['}', '\n'])
  }

  /** What the line of an event says. */
  function MembersOf(event: LogEvent, timestamps: bool): (members: seq<Member>)
    ensures members != []
  {
    var level := [Member("level", LevelLabel(event.level))];
    var caller := if event.caller.Some? then level + [Member("caller", event.caller.value)] else level;
    var time :=
      if timestamps && event.timestamp.Some? then caller + [Member("time", event.timestamp.value)] else caller;
    time + [Member("message", event.message)]
  }

  lemma {:induction false} MemberConcat(member: Member, tail: string, more: string)
    ensures MemberThen(member, tail) + more == MemberThen(member, tail + more)
  {
    QuotedConcat(member.value, tail, more);
    ConcatAssociative([':'], QuotedThen(member.value, tail), more);
    QuotedConcat(member.key, [':'] + QuotedThen(member.value, tail), more);
  }

  lemma {:induction false} MembersConcat(members: seq<Member>, tail: string, more: string)
    requires members != []
    ensures MembersThen(members, tail) + more == MembersThen(members, tail + more)
  {
    if |members| == 1 {
      MemberConcat(members[0], tail, more);
    } else {
      MembersConcat(members[1..], tail, more);
      ConcatAssociative([','], MembersThen(members[1..], tail), more);
      MemberConcat(members[0], [','] + MembersThen(members[1..], tail), more);
    }
  }

  lemma {:induction false} OneMoreMember(members: seq<Member>, member: Member, tail: string)
    requires members != []
    ensures MembersThen(members + [member], tail) == MembersThen(members, [','] + MemberThen(member, tail))
  {
    assert (members + [member])[1..] == members[1..] + [member];
    if |members| == 1 {
      assert members[1..] + [member] == [member];
    } else {
      OneMoreMember(members[1..], member, tail);
    }
  }

  /** The key needs no escapes. */
  ghost predicate PlainKey(key: string) {
    forall i :: 0 <= i < |key| ==> Escape(key[i]) == [key[i]]
  }

  lemma {:induction false} PlainEscaped(key: string, tail: string)
    requires PlainKey(key)
    ensures EscapedThen(key, tail) == key + tail
  {
    if key != [] {
      PlainEscaped(key[1..], tail);
      ConcatAssociative([key[0]], key[1..], tail);
      FirstAndRest(key);
    }
  }

  /** Writes a key as it is and its value as a JSON string. */
  method PushMember(line: string, member: Member) returns (longer: string)
    requires PlainKey(member.key)
    ensures longer == line + MemberThen(member, [])
  {
    longer := line + (['"'] + (member.key + ['"', ':']));
    KeyText(member.key, QuotedThen(member.value, []));
    ConcatAssociative(line, ['"'] + (member.key + ['"', ':']), QuotedThen(member.value, []));
    longer := PushJsonString(longer, member.value);
  }

  lemma {:induction false} KeyText(key: string, tail: string)
    requires PlainKey(key)
    ensures (['"'] + (key + ['"', ':'])) + tail == QuotedThen(key, [':'] + tail)
  {
    PlainEscaped(key, ['"'] + ([':'] + tail));
    assert ['"'] + ([':'] + tail) == ['"', ':'] + tail;
    ConcatAssociative(key, ['"', ':'], tail);
    ConcatAssociative(['"'], key + ['"', ':'], tail);
  }

  /** Writes a comma and another member. */
  method PushAnother(line: string, member: Member, ghost before: seq<Member>) returns (longer: string)
    requires PlainKey(member.key) && before != [] && line == ['{'] + MembersThen(before, [])
    ensures longer == ['{'] + MembersThen(before + [member], [])
  {
    longer := PushMember(line + [','], member);
    var piece := MemberThen(member, []);
    ConcatAssociative(line, [','], piece);
    MembersConcat(before, [], [','] + piece);
    assert [] + ([','] + piece) == [','] + piece;
    ConcatAssociative(['{'], MembersThen(before, []), [','] + piece);
    OneMoreMember(before, member, []);
  }

  method RenderJson(event: LogEvent, timestamps: bool) returns (line: string)
    ensures line == Line(MembersOf(event, timestamps))
  {
    LettersPlain("level");
    LettersPlain("caller");
    LettersPlain("time");
    LettersPlain("message");
    var level := Member("level", LevelLabel(event.level));
    ghost var members := [level];
    line := PushMember(['{'], level);
    if event.caller.Some? {
      var caller := Member("caller", event.caller.value);
      line := PushAnother(line, caller, members);
      members := members + [caller];
    }
    if timestamps && event.timestamp.Some? {
      var time := Member("time", event.timestamp.value);
      line := PushAnother(line, time, members);
      members := members + [time];
    }
    var message := Member("message", event.message);
    line := PushAnother(line, message, members);
    members := members + [message];
    LineCloses(members);
    line := line + ['}', '\n'];
  }

  /** Letters need no escapes. */
  lemma {:induction false} LettersPlain(key: string)
    requires forall i :: 0 <= i < |key| ==> 'a' <= key[i] <= 'z'
    ensures PlainKey(key)
  {
  }

  lemma {:induction false} LineCloses(members: seq<Member>)
    requires members != []
    ensures (['{'] + MembersThen(members, [])) + ['}', '\n'] == Line(members)
  {
    MembersConcat(members, [], ['}', '\n']);
    ConcatAssociative(['{'], MembersThen(members, []), ['}', '\n']);
    assert [] + ['}', '\n'] == ['}', '\n'];
  }

  // ---------------------------------------------------------------- a reader of the line

  /** Reads members up to the closing brace: what they are and the text after the brace. */
  function ReadMembers(text: string): Option<(seq<Member>, string)>
    decreases |text|
  {
    if text == [] || text[0] != '"' then None
    else
      var key := ReadString(text[1..]);
      if key.None? || |key.value.1| < 2 || key.value.1[0] != ':' || key.value.1[1] != '"' then None
      else
        var value := ReadString(key.value.1[2..]);
        if value.None? || value.value.1 == [] then None
        else
          var member, next, rest := Member(key.value.0, value.value.0), value.value.1[0], value.value.1[1..];
          if next == '}' then Some(([member], rest))
          else if next != ',' then None
          else
            var more := ReadMembers(rest);
            if more.None? then None else Some(([member] + more.value.0, more.value.1))
  }

  lemma {:induction false} MemberReads(member: Member, next: char, rest: string)
    ensures ReadMembers(MemberThen(member, [next] + rest)) ==
      if next == '}' then Some(([member], rest))
      else if next != ',' || ReadMembers(rest).None? then None
      else Some(([member] + ReadMembers(rest).value.0, ReadMembers(rest).value.1))
  {
    var value := QuotedThen(member.value, [next] + rest);
    QuotedReads(member.key, [':'] + value);
    QuotedReads(member.value, [next] + rest);
    Behind(':', value);
    DropDrop([':'] + value, 1, 1);
    Behind(next, rest);
  }

  /** Reading the members back gives them all, in order, and what comes after the brace. */
  lemma {:induction false} MembersRead(members: seq<Member>, rest: string)
    requires members != []
    ensures ReadMembers(MembersThen(members, ['}'] + rest)) == Some((members, rest))
  {
    if |members| == 1 {
      MemberReads(members[0], '}', rest);
      assert [members[0]] == members;
    } else {
      MembersRead(members[1..], rest);
      MemberReads(members[0], ',', MembersThen(members[1..], ['}'] + rest));
      FirstAndRest(members);
    }
  }

  /** A line is one JSON object with these members, followed by a line end. */
  lemma {:induction false} LineReads(members: seq<Member>)
    requires members != []
    ensures Line(members)[0] == '{' && ReadMembers(Line(members)[1..]) == Some((members, ['\n']))
  {
    MembersRead(members, ['\n']);
    assert ['}'] + ['\n'] == ['}', '\n'];
    Behind('{', MembersThen(members, ['}', '\n']));
  }

  /** Reading an event's line gives its level, its caller and its time if they are there, and its message. */
  lemma {:induction false} EventReads(event: LogEvent, timestamps: bool)
    ensures var line := Line(MembersOf(event, timestamps));
            var caller := if event.caller.Some? then [Member("caller", event.caller.value)] else [];
            var time :=
              if timestamps && event.timestamp.Some? then [Member("time", event.timestamp.value)] else [];
            && line[0] == '{'
            && ReadMembers(line[1..]) ==
                 Some(([Member("level", LevelLabel(event.level))] + caller + time + [Member("message", event.message)],
                       ['\n']))
  {
    hide Line, ReadMembers;
    LineReads(MembersOf(event, timestamps));
    ConcatEmpty([Member("level", LevelLabel(event.level))]);
    if event.caller.Some? {
      ConcatEmpty([Member("level", LevelLabel(event.level))] + [Member("caller", event.caller.value)]);
    }
  }

  // ---------------------------------------------------------------- one event, one line

  /** The number of line ends in a text. */
  function LineEnds(text: string): nat {
    if text == [] then 0 else (if text[0] == '\n' then 1 else 0) + LineEnds(text[1..])
  }

  lemma {:induction false} LineEndsBehind(c: char, rest: string)
    ensures LineEnds([c] + rest) == LineEnds(rest) + if c == '\n' then 1 else 0
  {
    Behind(c, rest);
  }

  lemma {:induction false} LineEndsConcat(text: string, rest: string)
    requires '\n' !in text
    ensures LineEnds(text + rest) == LineEnds(rest)
  {
    if text == [] {
      assert text + rest == rest;
    } else {
      LineEndsConcat(text[1..], rest);
      assert (text + rest)[1..] == text[1..] + rest;
    }
  }

  lemma {:induction false} EscapedLineEnds(value: string, tail: string)
    ensures LineEnds(EscapedThen(value, tail)) == LineEnds(tail)
  {
    if value != [] {
      EscapedLineEnds(value[1..], tail);
      LineEndsConcat(Escape(value[0]), EscapedThen(value[1..], tail));
    }
  }

  lemma {:induction false} QuotedLineEnds(value: string, tail: string)
    ensures LineEnds(QuotedThen(value, tail)) == LineEnds(tail)
  {
    EscapedLineEnds(value, ['"'] + tail);
    LineEndsBehind('"', EscapedThen(value, ['"'] + tail));
    LineEndsBehind('"', tail);
  }

  lemma {:induction false} MembersLineEnds(members: seq<Member>, tail: string)
    requires members != []
    ensures LineEnds(MembersThen(members, tail)) == LineEnds(tail)
  {
    var first := members[0];
    var rest := if |members| == 1 then tail else [','] + MembersThen(members[1..], tail);
    QuotedLineEnds(first.value, rest);
    LineEndsBehind(':', QuotedThen(first.value, rest));
    QuotedLineEnds(first.key, [':'] + QuotedThen(first.value, rest));
    if |members| > 1 {
      MembersLineEnds(members[1..], tail);
      LineEndsBehind(',', MembersThen(members[1..], tail));
    }
  }

  /** A line holds exactly one line end, and it is the last character, whatever the members contain. */
  lemma {:induction false} OneLine(members: seq<Member>)
    requires members != []
    ensures LineEnds(Line(members)) == 1 && Line(members)[|Line(members)| - 1] == '\n'
  {
    var tail := ['}', '\n'];
    MembersLineEnds(members, tail);
    LineEndsBehind('{', MembersThen(members, tail));
    assert ['}'] + ['\n'] == tail && ['\n'] + [] == ['\n'];
    LineEndsBehind('}', ['\n']);
    LineEndsBehind('\n', []);
    assert [] + tail == tail;
    MembersConcat(members, [], tail);
  }
}
