/**
 Reading a file line by line through a buffer of fixed capacity that is compacted in place.
 */
module LineReader {
  import opened Prelude

  const NEWLINE: byte := 10

  /** The position of the first newline, or the length. */
  function LineEnd(s: seq<byte>): (n: nat)
    ensures n <= |s|
    ensures n < |s| ==> s[n] == NEWLINE
    ensures forall i :: 0 <= i < n ==> s[i] != NEWLINE
  {
    if s == [] || s[0] == NEWLINE then 0 else 1 + LineEnd(s[1..])
  }

  /** The lines of a text without their newlines; a last line may lack its newline. */
  function Lines(s: seq<byte>): seq<seq<byte>>
    decreases |s|
  {
    if s == [] then []
    else
      var n := LineEnd(s);
      if n == |s| then [s] else [s[..n]] + Lines(s[n + 1..])
  }

  /** The text made of these lines, each with a newline. */
  function Joined(lines: seq<seq<byte>>): seq<byte> {
    if lines == [] then [] else lines[0] + [NEWLINE] + Joined(lines[1..])
  }

  /** The lines contain no newline, and joining them rebuilds the text up to a last newline. */
  lemma {:induction false} LinesRebuild(s: seq<byte>)
    ensures forall i :: 0 <= i < |Lines(s)| ==> NEWLINE !in Lines(s)[i]
    ensures Joined(Lines(s)) == if s == [] || s[|s| - 1] == NEWLINE then s else s + [NEWLINE]
    decreases |s|
  {
    if s != [] {
      var n := LineEnd(s);
      if n == |s| {
        assert Lines(s) == [s] && Lines(s)[1..] == [];
      } else {
        var tail := s[n + 1..];
        LinesRebuild(tail);
        JoinedFirst(s[..n], Lines(tail));
        RejoinFirst(s, n, Joined(Lines(tail)));
      }
    }
  }

  lemma JoinedFirst(line: seq<byte>, lines: seq<seq<byte>>)
    ensures Joined([line] + lines) == line + [NEWLINE] + Joined(lines)
  {
    assert ([line] + lines)[1..] == lines;
  }

  lemma RejoinFirst(s: seq<byte>, n: nat, joined: seq<byte>)
    requires n < |s| && s[n] == NEWLINE
    requires var tail := s[n + 1..];
             joined == if tail == [] || tail[|tail| - 1] == NEWLINE then tail else tail + [NEWLINE]
    ensures s[..n] + [NEWLINE] + joined == if s[|s| - 1] == NEWLINE then s else s + [NEWLINE]
  {
    assert s == s[..n] + [NEWLINE] + s[n + 1..];
  }

  /** The lines ahead of the first one that does not fit a buffer of `capacity`. */
  function Fitting(lines: seq<seq<byte>>, capacity: nat): seq<seq<byte>> {
    if lines == [] || |lines[0]| >= capacity then []
    else [lines[0]] + Fitting(lines[1..], capacity)
  }

  lemma {:induction false} FittingAll(lines: seq<seq<byte>>, capacity: nat)
    ensures Fitting(lines, capacity) == lines <==>
            forall i :: 0 <= i < |lines| ==> |lines[i]| < capacity
  {
    if lines != [] {
      FittingAll(lines[1..], capacity);
      if |lines[0]| < capacity {
        assert lines == [lines[0]] + lines[1..];
        if forall i :: 0 <= i < |lines[1..]| ==> |lines[1..][i]| < capacity {
        } else {
          var i :| 0 <= i < |lines[1..]| && |lines[1..][i]| >= capacity;
          assert |lines[i + 1]| >= capacity;
        }
      } else {
        assert Fitting(lines, capacity) == [] != lines;
      }
    }
  }

  /** The line ends at the same place whatever follows its newline. */
  lemma LineEndPrefix(s: seq<byte>, t: seq<byte>)
    ensures LineEnd(s) < |s| ==> LineEnd(s + t) == LineEnd(s)
    ensures LineEnd(s) == |s| ==> LineEnd(s + t) == |s| + LineEnd(t)
  {
    var r := s + t;
    assert forall i :: 0 <= i < |s| ==> r[i] == s[i];
    assert forall i :: 0 <= i < |t| ==> r[|s| + i] == t[i];
    if LineEnd(s) < |s| {
      assert r[LineEnd(s)] == NEWLINE;
    } else if LineEnd(t) < |t| {
      assert r[|s| + LineEnd(t)] == NEWLINE;
    }
  }

  /** What is left behind the first line and its newline. */
  function Tail(s: seq<byte>): (t: seq<byte>)
    ensures s != [] ==> |t| < |s|
  {
    var n := LineEnd(s);
    if n == |s| then [] else s[n + 1..]
  }

  /** The first line of a text is found in any part of it that contains the newline. */
  lemma LineInPart(data: seq<byte>, rest: seq<byte>)
    requires LineEnd(data) < |data|
    ensures LineEnd(data + rest) == LineEnd(data)
    ensures (data + rest)[..LineEnd(data)] == data[..LineEnd(data)]
    ensures Tail(data + rest) == data[LineEnd(data) + 1..] + rest
  {
    LineEndPrefix(data, rest);
  }

  /** What a reader gets, in terms of the first line. */
  lemma FittingStep(s: seq<byte>, capacity: nat)
    ensures s == [] || LineEnd(s) >= capacity ==> Fitting(Lines(s), capacity) == []
    ensures s != [] && LineEnd(s) < capacity ==>
            Fitting(Lines(s), capacity) == [s[..LineEnd(s)]] + Fitting(Lines(Tail(s)), capacity)
  {
    if s != [] {
      assert LineEnd(s) == |s| ==> s[..LineEnd(s)] == s;
      assert Lines(s) == [s[..LineEnd(s)]] + Lines(Tail(s));
    }
  }

  lemma OneMore(lines: seq<seq<byte>>, s: seq<byte>, capacity: nat)
    requires s != [] && LineEnd(s) < capacity
    ensures lines + Fitting(Lines(s), capacity)
         == lines + [s[..LineEnd(s)]] + Fitting(Lines(Tail(s)), capacity)
  {
    FittingStep(s, capacity);
    Regroup(lines, [s[..LineEnd(s)]], Fitting(Lines(Tail(s)), capacity));
  }

  class File {
    /** The part of the file that has not been read. */
    var rest: seq<byte>
    /** The buffer; its first `len` bytes are the data at hand. */
    const buf: array<byte>
    var len: nat
    var atEOF: bool

    ghost predicate Valid()
      reads this, buf
    {
      len <= buf.Length && (atEOF ==> rest == [] && len < buf.Length)
    }

    /** What has been read and not yet returned, and what has not been read. */
    ghost function Ahead(): seq<byte>
      requires Valid()
      reads this, buf
    {
      buf[..len] + rest
    }

    constructor (content: seq<byte>, capacity: nat)
      ensures Valid() && fresh(buf) && buf.Length == capacity
      ensures Ahead() == content && len == 0 && !atEOF
    {
      buf := new byte[capacity](_ => 0);
      rest, len, atEOF := content, 0, false;
    }

    /** Moves the data behind the first `n` bytes to the front of the buffer. */
    method Compact(n: nat)
      requires Valid() && n <= len
      modifies this`len, buf
      ensures Valid() && len == old(len) - n && buf[..len] == old(buf[n..len])
    {
      var m := len - n;
      for i := 0 to m
        invariant buf[..i] == old(buf[n..])[..i]
        invariant forall k :: i + n <= k < buf.Length ==> buf[k] == old(buf[k])
      {
        buf[i] := buf[i + n];
      }
      len := m;
    }

    /** The first line of what is ahead, if the data at hand show where it ends. */
    method GetLineFromData() returns (line: seq<byte>, ok: bool)
      requires Valid()
      modifies this`len, buf
      ensures Valid()
      ensures ok ==> IsNext(old(Ahead()), line)
      ensures Ahead() == if ok then Tail(old(Ahead())) else old(Ahead())
      ensures !ok ==> buf[..len] == old(buf[..len]) && LineEnd(buf[..len]) == len && (atEOF ==> len == 0)
    {
      ghost var data := buf[..len];
      for i := 0 to len
        invariant buf[..len] == data && len == old(len)
        invariant forall k :: 0 <= k < i ==> data[k] != NEWLINE
      {
        if buf[i] == NEWLINE {
          assert LineEnd(data) == i;
          LineInPart(data, rest);
          line := buf[..i];
          Compact(i + 1);
          assert buf[..len] == data[i + 1..];
          return line, true;
        }
      }
      assert LineEnd(data) == |data|;
      if atEOF && len > 0 {
        line := buf[..len];
        assert data + rest == data && data[..LineEnd(data)] == data;
        len := 0;
        return line, true;
      }
      return [], false;
    }

    /** Reads until the buffer is full or the file ends. */
    method Fill()
      requires Valid()
      modifies this, buf
      ensures Valid()
      ensures Ahead() == old(Ahead())
      ensures len < buf.Length ==> atEOF
      ensures old(atEOF) ==> atEOF
      ensures buf[..old(len)] == old(buf[..len]) && old(len) <= len
    {
      if len < buf.Length {
        var n := if |rest| < buf.Length - len then |rest| else buf.Length - len;
        ghost var data, ahead := buf[..len], Ahead();
        for i := 0 to n
          invariant len == old(len) && rest == old(rest) && atEOF == old(atEOF)
          invariant buf[..len + i] == data + rest[..i]
        {
          buf[len + i] := rest[i];
        }
        if n < buf.Length - len {
          atEOF := true;
        }
        rest, len := rest[n..], len + n;
        assert data + old(rest)[..n] + old(rest)[n..] == ahead;
      }
    }

    /**
     The next line of what is ahead, if it fits the buffer; otherwise, and at the end of the
     file, nothing, and nothing is lost.
     */
    method ReadLine() returns (line: seq<byte>, ok: bool)
      requires Valid()
      modifies this, buf
      ensures Valid()
      ensures ok <==> old(Ahead()) != [] && LineEnd(old(Ahead())) < buf.Length
      ensures ok ==> IsNext(old(Ahead()), line)
      ensures Ahead() == if ok then Tail(old(Ahead())) else old(Ahead())
    {
      line, ok := GetLineFromData();
      if ok {
        return;
      }
      Fill();
      line, ok := GetLineFromData();
      if !ok {
        LineEndPrefix(buf[..len], rest);
      }
    }

    /** All the lines, as the caller's loop gets them. */
    method ReadAll() returns (lines: seq<seq<byte>>)
      requires Valid()
      modifies this, buf
      ensures lines == Fitting(Lines(old(Ahead())), buf.Length)
    {
      lines := [];
      ghost var text := Ahead();
      var line, ok := ReadLine();
      while ok
        invariant Valid()
        invariant ok <==> text != [] && LineEnd(text) < buf.Length
        invariant ok ==> IsNext(text, line) && Ahead() == Tail(text)
        invariant Fitting(Lines(old(Ahead())), buf.Length) == lines + Fitting(Lines(text), buf.Length)
        decreases |text|
      {
        OneMore(lines, text, buf.Length);
        lines := lines + [line];
        text := Tail(text);
        line, ok := ReadLine();
      }
      FittingStep(text, buf.Length);
    }

    /** The line is the first of a text, and fits the buffer. */
    ghost predicate IsNext(text: seq<byte>, line: seq<byte>) {
      text != [] && LineEnd(text) < buf.Length && line == text[..LineEnd(text)]
    }
  }

  /**
   The caller gets exactly the lines of the file if and only if each of them, without its
   newline, is shorter than the buffer; otherwise it gets the lines ahead of the first that
   is not.
   */
  method ReadFile(content: seq<byte>, capacity: nat) returns (lines: seq<seq<byte>>)
    ensures lines == Fitting(Lines(content), capacity)
    ensures lines == Lines(content) <==> forall i :: 0 <= i < |Lines(content)| ==> |Lines(content)[i]| < capacity
  {
    var f := new File(content, capacity);
    lines := f.ReadAll();
    FittingAll(Lines(content), capacity);
  }
}
