/**
 The text of a message on the socket: words separated by single spaces, with keys and
 values in base64 (section 4 of RFC 4648) because they may contain spaces themselves.
 */
module Wire {
  import opened Prelude
  import opened Collection

  // ---------- base64 ----------

  function Digit(n: int): char
    requires 0 <= n < 64
  {
    if n < 26 then (n + 'A' as int) as char
    else if n < 52 then (n - 26 + 'a' as int) as char
    else if n < 62 then (n - 52 + '0' as int) as char
    else if n == 62 then '+'
    else '/'
  }

  /** The value of a base64 digit, or -1. */
  function DigitValue(c: char): int {
    if 'A' <= c <= 'Z' then c as int - 'A' as int
    else if 'a' <= c <= 'z' then c as int - 'a' as int + 26
    else if '0' <= c <= '9' then c as int - '0' as int + 52
    else if c == '+' then 62
    else if c == '/' then 63
    else -1
  }

  function Encode(b: seq<byte>): string {
    if |b| == 0 then ""
    else if |b| == 1 then [Digit(b[0] / 4), Digit(b[0] % 4 * 16), '=', '=']
    else if |b| == 2 then
      [Digit(b[0] / 4), Digit(b[0] % 4 * 16 + b[1] / 16), Digit(b[1] % 16 * 4), '=']
    else
      [Digit(b[0] / 4), Digit(b[0] % 4 * 16 + b[1] / 16),
       Digit(b[1] % 16 * 4 + b[2] / 64), Digit(b[2] % 64)] + Encode(b[3..])
  }

  function Decode(s: string): Option<seq<byte>> {
    if s == "" then Some([])
    else if |s| < 4 then None
    else
      var d0, d1, d2, d3 := DigitValue(s[0]), DigitValue(s[1]), DigitValue(s[2]), DigitValue(s[3]);
      if d0 < 0 || d1 < 0 then None
      else if d2 >= 0 && d3 >= 0 then
        var rest := Decode(s[4..]);
        if rest.None? then None
        else Some([d0 * 4 + d1 / 16, d1 % 16 * 16 + d2 / 4, d2 % 4 * 64 + d3] + rest.value)
      else if |s| > 4 || s[3] != '=' then None
      else if d2 >= 0 then Some([d0 * 4 + d1 / 16, d1 % 16 * 16 + d2 / 4])
      else if s[2] == '=' then Some([d0 * 4 + d1 / 16])
      else None
  }

  lemma DigitRoundTrip(n: int)
    requires 0 <= n < 64
    ensures DigitValue(Digit(n)) == n
    ensures Digit(n) != ' ' && Digit(n) != '='
  {
  }

  /** A whole group of three bytes is recovered from its four digits. */
  lemma GroupRoundTrip(x: byte, y: byte, z: byte)
    ensures var d0, d1, d2, d3 := x / 4, x % 4 * 16 + y / 16, y % 16 * 4 + z / 64, z % 64;
            && 0 <= d0 < 64 && 0 <= d1 < 64 && 0 <= d2 < 64 && 0 <= d3 < 64
            && d0 * 4 + d1 / 16 == x && d1 % 16 * 16 + d2 / 4 == y && d2 % 4 * 64 + d3 == z
  {
  }

  lemma DecodeWholeGroup(s: string, d0: int, d1: int, d2: int, d3: int, rest: seq<byte>)
    requires |s| >= 4 && Decode(s[4..]) == Some(rest)
    requires 0 <= d0 < 64 && 0 <= d1 < 64 && 0 <= d2 < 64 && 0 <= d3 < 64
    requires DigitValue(s[0]) == d0 && DigitValue(s[1]) == d1
    requires DigitValue(s[2]) == d2 && DigitValue(s[3]) == d3
    ensures Decode(s) ==
      Some([d0 * 4 + d1 / 16, d1 % 16 * 16 + d2 / 4, d2 % 4 * 64 + d3] + rest)
  {
  }

  lemma OneByte(x: byte)
    ensures Decode(Encode([x])) == Some([x])
    ensures ' ' !in Encode([x])
  {
    GroupRoundTrip(x, 0, 0);
    var d0, d1 := x / 4, x % 4 * 16;
    DigitRoundTrip(d0);
    DigitRoundTrip(d1);
    var s := [Digit(d0), Digit(d1), '=', '='];
    assert Encode([x]) == s;
    assert Decode(s) == Some([d0 * 4 + d1 / 16]);
  }

  lemma TwoBytes(x: byte, y: byte)
    ensures Decode(Encode([x, y])) == Some([x, y])
    ensures ' ' !in Encode([x, y])
  {
    GroupRoundTrip(x, y, 0);
    var d0, d1, d2 := x / 4, x % 4 * 16 + y / 16, y % 16 * 4;
    DigitRoundTrip(d0);
    DigitRoundTrip(d1);
    DigitRoundTrip(d2);
    var s := [Digit(d0), Digit(d1), Digit(d2), '='];
    assert Encode([x, y]) == s;
    assert Decode(s) == Some([d0 * 4 + d1 / 16, d1 % 16 * 16 + d2 / 4]);
  }

  lemma ThreeBytes(x: byte, y: byte, z: byte, b: seq<byte>)
    requires Decode(Encode(b)) == Some(b)
    requires ' ' !in Encode(b)
    ensures Decode(Encode([x, y, z] + b)) == Some([x, y, z] + b)
    ensures ' ' !in Encode([x, y, z] + b)
  {
    GroupRoundTrip(x, y, z);
    var d0, d1, d2, d3 := x / 4, x % 4 * 16 + y / 16, y % 16 * 4 + z / 64, z % 64;
    DigitRoundTrip(d0);
    DigitRoundTrip(d1);
    DigitRoundTrip(d2);
    DigitRoundTrip(d3);
    assert ([x, y, z] + b)[3..] == b;
    var s := [Digit(d0), Digit(d1), Digit(d2), Digit(d3)] + Encode(b);
    assert Encode([x, y, z] + b) == s;
    assert s[4..] == Encode(b);
    DecodeWholeGroup(s, d0, d1, d2, d3, b);
  }

  /** Base64 loses nothing and uses no space. */
  lemma {:induction false} Base64RoundTrip(b: seq<byte>)
    ensures Decode(Encode(b)) == Some(b)
    ensures ' ' !in Encode(b)
    decreases |b|
  {
    if |b| >= 3 {
      Base64RoundTrip(b[3..]);
      ThreeBytes(b[0], b[1], b[2], b[3..]);
      assert b == [b[0], b[1], b[2]] + b[3..];
    } else if |b| == 2 {
      TwoBytes(b[0], b[1]);
      assert b == [b[0], b[1]];
    } else if |b| == 1 {
      OneByte(b[0]);
      assert b == [b[0]];
    }
  }

  // ---------- words ----------

  /** `strings.Split(s, " ")`: always at least one word, possibly empty. */
  function Split(s: string): (words: seq<string>)
    ensures |words| >= 1
  {
    if s == "" then [""]
    else if s[0] == ' ' then [""] + Split(s[1..])
    else
      var rest := Split(s[1..]);
      [[s[0]] + rest[0]] + rest[1..]
  }

  lemma {:induction false} SplitAtFirstSpace(word: string, tail: string)
    requires ' ' !in word
    ensures Split(word) == [word]
    ensures Split(word + " " + tail) == [word] + Split(tail)
  {
    if word == "" {
      assert word + " " + tail == " " + tail;
    } else {
      SplitAtFirstSpace(word[1..], tail);
      assert (word + " " + tail)[1..] == word[1..] + " " + tail;
      assert word == [word[0]] + word[1..];
    }
  }

  // ---------- messages ----------

  /** What the server writes for a message. */
  function Format(topic: string, msg: Message): string {
    match msg
    case Hello => "hello" + " " + topic
    case Complete => "complete" + " " + topic
    case Restarted => "restarted" + " " + topic
    case Delete(k) => "delete" + " " + (topic + " " + Encode(k))
    case Update(k, v) => "update" + " " + (topic + " " + (Encode(k) + " " + Encode(v)))
  }

  /**
   The reader's side of the subscription: the change it hands over for a text read from the
   socket, or nothing if it skips the text. The topic is compared only for the log.
   */
  function ReadText(text: string): Option<string> {
    var reply := Split(text);
    if |reply| < 2 then None
    else if reply[0] == "hello" then None
    else if reply[0] == "complete" then Some("C" + " " + "done")
    else if reply[0] == "restarted" then Some("R" + " " + "done")
    else if reply[0] == "delete" then
      if |reply| < 3 then None else Some("D" + " " + reply[2])
    else if reply[0] == "update" then
      if |reply| != 4 then None else Some("M" + " " + (reply[2] + " " + reply[3]))
    else None
  }

  /** What the subscription's owner makes of a change; nothing if the change is malformed. */
  function ReadChange(change: string): Option<Message> {
    var reply := Split(change);
    if reply[0] == "C" then Some(Complete)
    else if reply[0] == "R" then Some(Restarted)
    else if reply[0] == "D" && |reply| >= 2 then
      var key := Decode(reply[1]);
      if key.None? then None else Some(Delete(key.value))
    else if reply[0] == "M" && |reply| >= 3 then
      var key, val := Decode(reply[1]), Decode(reply[2]);
      if key.None? || val.None? then None else Some(Update(key.value, val.value))
    else None
  }

  lemma TwoWords(a: string, b: string)
    requires ' ' !in a && ' ' !in b
    ensures Split(a + " " + b) == [a, b]
  {
    SplitAtFirstSpace(a, b);
    SplitAtFirstSpace(b, "");
  }

  lemma ThreeWords(a: string, b: string, c: string)
    requires ' ' !in a && ' ' !in b && ' ' !in c
    ensures Split(a + " " + (b + " " + c)) == [a, b, c]
  {
    SplitAtFirstSpace(a, b + " " + c);
    TwoWords(b, c);
  }

  lemma FourWords(a: string, b: string, c: string, d: string)
    requires ' ' !in a && ' ' !in b && ' ' !in c && ' ' !in d
    ensures Split(a + " " + (b + " " + (c + " " + d))) == [a, b, c, d]
  {
    SplitAtFirstSpace(a, b + " " + (c + " " + d));
    ThreeWords(b, c, d);
  }

  lemma NoticeRoundTrip(topic: string, msg: Message)
    requires ' ' !in topic && (msg.Complete? || msg.Restarted?)
    ensures ReadText(Format(topic, msg)).Some?
    ensures ReadChange(ReadText(Format(topic, msg)).value) == Some(msg)
  {
    TwoWords("complete", topic);
    TwoWords("restarted", topic);
    TwoWords("C", "done");
    TwoWords("R", "done");
  }

  lemma DeleteRoundTrip(topic: string, k: Key)
    requires ' ' !in topic
    ensures ReadText(Format(topic, Delete(k))).Some?
    ensures ReadChange(ReadText(Format(topic, Delete(k))).value) == Some(Delete(k))
  {
    Base64RoundTrip(k);
    ThreeWords("delete", topic, Encode(k));
    TwoWords("D", Encode(k));
  }

  lemma UpdateRoundTrip(topic: string, k: Key, v: Value)
    requires ' ' !in topic
    ensures ReadText(Format(topic, Update(k, v))).Some?
    ensures ReadChange(ReadText(Format(topic, Update(k, v))).value) == Some(Update(k, v))
  {
    Base64RoundTrip(k);
    Base64RoundTrip(v);
    FourWords("update", topic, Encode(k), Encode(v));
    ThreeWords("M", Encode(k), Encode(v));
  }

  /**
   Every message but the greeting comes out at the subscription as it went in at the
   server, through two rounds of splitting and the decoding, for every key and value.
   */
  lemma MessageRoundTrip(topic: string, msg: Message)
    requires ' ' !in topic
    ensures msg.Hello? ==> ReadText(Format(topic, msg)).None?
    ensures !msg.Hello? ==> ReadText(Format(topic, msg)).Some?
    ensures !msg.Hello? ==> ReadChange(ReadText(Format(topic, msg)).value) == Some(msg)
  {
    match msg
    case Hello => TwoWords("hello", topic);
    case Complete => NoticeRoundTrip(topic, msg);
    case Restarted => NoticeRoundTrip(topic, msg);
    case Delete(k) => DeleteRoundTrip(topic, k);
    case Update(k, v) => UpdateRoundTrip(topic, k, v);
  }
}
