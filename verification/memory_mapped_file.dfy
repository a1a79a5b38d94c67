/** MemoryMappedFile (memoryMappedFile.cpp): a file mapped into memory and
    read line by line through a cursor. The mapped view is a character array
    of which the first maxSize characters are the file. */
module MemoryMappedFile {
  import opened Text

  /** A Win32 DWORD. */
  const TwoTo32: nat := 0x1_0000_0000
  type DWord = x: int | 0 <= x < 0x1_0000_0000

  /** The 64-bit file size from the two halves GetFileSize reports:
      (high << 32) + low, which splits back into the same halves. */
  function FileSize(high: DWord, low: DWord): (size: nat)
    ensures size < 0x1_0000_0000_0000_0000
    ensures size / TwoTo32 == high && size % TwoTo32 == low
  {
    high * TwoTo32 + low
  }

  /** The lines, each followed by '\n', one after the other. */
  function JoinLines(lines: seq<string>): (r: string)
    ensures r == [] || r[|r| - 1] == '\n'
  {
    if lines == [] then []
    else JoinLines(lines[..|lines| - 1]) + lines[|lines| - 1] + ['\n']
  }

  predicate NoNewline(line: string) {
    '\n' !in line
  }

  /** In the joined lines followed by a newline-free tail, the last '\n' is
      the one that ends the joined part. */
  lemma LastNewlineEndsJoin(lines: seq<string>, tail: string)
    requires NoNewline(tail)
    ensures var t := JoinLines(lines) + tail;
      FindLast(t, '\n') == if lines == [] then None else Some(|JoinLines(lines)| - 1)
  {
    var j := JoinLines(lines);
    var t := j + tail;
    assert forall i :: |j| <= i < |t| ==> t[i] == tail[i - |j|];
    if lines != [] {
      assert t[|j| - 1] == '\n';
    }
  }

  /** The text the reader has consumed tells the lines it returned: two
      sequences of newline-free lines that join to the same text are equal. */
  lemma {:induction false} JoinLinesInjective(a: seq<string>, b: seq<string>)
    requires forall i :: 0 <= i < |a| ==> NoNewline(a[i])
    requires forall i :: 0 <= i < |b| ==> NoNewline(b[i])
    requires JoinLines(a) == JoinLines(b)
    ensures a == b
    decreases |a|
  {
    if a != [] && b != [] {
      var a0, aLast := a[..|a| - 1], a[|a| - 1];
      var b0, bLast := b[..|b| - 1], b[|b| - 1];
      var t := JoinLines(a0) + aLast;
      assert t == JoinLines(b0) + bLast by {
        var u := JoinLines(b0) + bLast;
        assert JoinLines(a) == t + ['\n'];
        assert JoinLines(b) == u + ['\n'];
        assert t == (t + ['\n'])[..|t|];
        assert u == (u + ['\n'])[..|u|];
      }
      LastNewlineEndsJoin(a0, aLast);
      LastNewlineEndsJoin(b0, bLast);
      assert aLast == t[|JoinLines(a0)|..] == bLast;
      assert JoinLines(a0) == t[..|JoinLines(a0)|] == JoinLines(b0);
      JoinLinesInjective(a0, b0);
      assert a == a0 + [aLast] && b == b0 + [bLast];
    }
  }

  class MemoryMappedFile {
    const mappedView: array<char>
    const maxSize: nat
    var currentOffset: nat
    /** The lines returned so far. */
    ghost var linesRead: seq<string>

    /** The cursor stays within the file, and the text before it is exactly
        the lines returned so far, each with its '\n'. */
    ghost predicate Valid()
      reads this, mappedView
    {
      maxSize <= mappedView.Length &&
      currentOffset <= maxSize &&
      (forall i :: 0 <= i < |linesRead| ==> NoNewline(linesRead[i])) &&
      JoinLines(linesRead) == mappedView[..currentOffset]
    }

    /** The file as mapped: its first maxSize characters. */
    ghost function Contents(): string
      reads this, mappedView
      requires maxSize <= mappedView.Length
    {
      mappedView[..maxSize]
    }

    /** A mapped file of GetFileSize's size, read from its start. */
    constructor (view: array<char>, highOrderSize: DWord, lowOrderSize: DWord)
      requires FileSize(highOrderSize, lowOrderSize) <= view.Length
      ensures mappedView == view && maxSize == FileSize(highOrderSize, lowOrderSize)
      ensures currentOffset == 0 && linesRead == []
      ensures Valid()
    {
      mappedView := view;
      maxSize := FileSize(highOrderSize, lowOrderSize);
      currentOffset := 0;
      linesRead := [];
    }

    /** Returns the text up to the next '\n' within the file and moves past
        it; with no further '\n' nothing changes and the trailing text is
        never returned. */
    method ReadNextLine(line: string) returns (found: bool, lineOut: string)
      requires Valid()
      modifies this`currentOffset, this`linesRead
      ensures Valid()
      ensures var next := FindFrom(Contents(), '\n', old(currentOffset));
        && (found <==> next.Some?)
        && (found ==> lineOut == mappedView[old(currentOffset)..next.value]
                      && currentOffset == next.value + 1
                      && linesRead == old(linesRead) + [lineOut])
        && (!found ==> lineOut == line && currentOffset == old(currentOffset)
                       && linesRead == old(linesRead))
    {
      ghost var contents := Contents();
      var i := currentOffset;
      while i < maxSize
        invariant currentOffset <= i <= maxSize
        invariant forall k :: currentOffset <= k < i ==> contents[k] != '\n'
      {
        if mappedView[i] == '\n' {
          assert contents[i] == '\n';
          lineOut := mappedView[currentOffset..i];
          assert NoNewline(lineOut) by {
            forall k | 0 <= k < |lineOut| ensures lineOut[k] != '\n' {
              assert lineOut[k] == contents[currentOffset + k];
            }
          }
          assert mappedView[..i + 1] == mappedView[..currentOffset] + lineOut + ['\n'];
          linesRead := linesRead + [lineOut];
          assert linesRead[..|linesRead| - 1] == old(linesRead);
          currentOffset := i + 1;
          return true, lineOut;
        }
        i := i + 1;
      }
      return false, line;
    }
  }
}
