/** Two helpers the worker uses to describe itself to the server
    (worker/worker.py): `utcoffset`, the local UTC offset as "+HH:MM", and
    `get_exception`, the one-line report of the exception being handled.
    The offset in seconds (read from the clock and time zone settings) and
    the traceback (as its frames' file base names and line numbers) are
    inputs. */
module Diagnostics {
  import opened Wrappers
  import opened Text
  import Integrity

  /** The three parts of a "+HH:MM" text. */
  datatype OffsetParts = OffsetParts(east: bool, hours: nat, minutes: nat)

  /** What `utcoffset` shows of an offset in seconds: its sign, and its
      whole minutes (Python's `//`, which rounds toward negative infinity
      like Dafny's `/` by a positive number) in absolute value, split into
      hours and minutes. */
  function OffsetFields(offset: int): (p: OffsetParts)
    ensures p.east <==> offset >= 0
    ensures p.minutes < 60
    ensures p.hours * 60 + p.minutes == if offset / 60 < 0 then -(offset / 60) else offset / 60
  {
    var minutes := offset / 60;
    var a: nat := if minutes < 0 then -minutes else minutes;
    OffsetParts(offset >= 0, a / 60, a % 60)
  }

  /** The "+HH:MM" text of the parts: sign, zero-padded hours, colon,
      zero-padded minutes. */
  function Render(p: OffsetParts): (r: seq<char>)
    requires p.minutes < 100
    ensures |r| >= 6 && r[|r| - 3] == ':'
    ensures r[0] == (if p.east then '+' else '-')
  {
    [if p.east then '+' else '-'] + Pad2(p.hours) + ":" + Pad2(p.minutes)
  }

  /** `utcoffset`, given the offset in seconds. */
  function UtcOffset(offset: int): (r: seq<char>)
    ensures |r| >= 6 && r[|r| - 3] == ':'
    ensures r[0] == '+' <==> offset >= 0
  {
    Render(OffsetFields(offset))
  }

  /** Reads a "+HH:MM" or "-HH:MM" text (at least one hour digit, exactly
      two minute digits). */
  function ReadOffset(s: seq<char>): Option<OffsetParts>
  {
    if |s| < 5 || (s[0] != '+' && s[0] != '-') || s[|s| - 3] != ':' then None
    else
      var h, m := s[1..|s| - 3], s[|s| - 2..];
      if AllDigits(h) && AllDigits(m) then Some(OffsetParts(s[0] == '+', ReadDecimal(h), ReadDecimal(m)))
      else None
  }

  /** Reading a rendered text gives back its parts. */
  lemma ReadRender(p: OffsetParts)
    requires p.minutes < 100
    ensures ReadOffset(Render(p)) == Some(p)
  {
    var hh, mm := Pad2(p.hours), Pad2(p.minutes);
    var r := Render(p);
    assert r == [r[0]] + hh + ":" + mm;
    assert r[1..|r| - 3] == hh;
    assert r[|r| - 2..] == mm;
  }

  /** The text `utcoffset` writes reads back as the sign of the offset and
      hours and minutes that add up to its whole minutes in absolute value. */
  lemma UtcOffsetRoundTrip(offset: int)
    ensures ReadOffset(UtcOffset(offset)) == Some(OffsetFields(offset))
    ensures ReadOffset(UtcOffset(offset)).value.east <==> offset >= 0
    ensures var p := ReadOffset(UtcOffset(offset)).value;
      p.minutes < 60 && p.hours * 60 + p.minutes == if offset / 60 < 0 then -(offset / 60) else offset / 60
  {
    ReadRender(OffsetFields(offset));
  }

  /** Offsets of at most a day either way are written in exactly six
      characters, "+HH:MM". */
  lemma UtcOffsetWidth(offset: int)
    requires -86400 <= offset <= 86400
    ensures |UtcOffset(offset)| == 6
  {
    assert OffsetFields(offset).hours <= 24;
  }

  /** A traceback frame: the base name of its file and its line number. */
  datatype Frame = Frame(file: seq<char>, line: nat)

  /** How many frames, from the first, lie in one of `files`. */
  function OwnRun(frames: seq<Frame>, files: seq<seq<char>>): (n: nat)
    ensures n <= |frames|
    ensures forall k :: 0 <= k < n ==> frames[k].file in files
    ensures n < |frames| ==> frames[n].file !in files
  {
    if frames == [] || frames[0].file !in files then 0 else 1 + OwnRun(frames[1..], files)
  }

  /** The frame `get_exception` reports: the last of the leading frames that
      lie in the worker's files, or the first frame if it lies elsewhere. */
  function ReportedIndex(frames: seq<Frame>, files: seq<seq<char>>): (j: nat)
    requires |frames| > 0
    ensures j < |frames|
    ensures forall k :: 0 <= k <= j ==> frames[k].file in files || j == 0
    ensures frames[j].file in files ==> j + 1 == |frames| || frames[j + 1].file !in files
  {
    var n := OwnRun(frames, files);
    if n == 0 then 0 else n - 1
  }

  /** The report of an exception of type `excType` raised at frame `f`. */
  function Message(excType: seq<char>, f: Frame): seq<char>
  {
    "Exception " + excType + " at " + f.file + ":" + Decimal(f.line)
      + " WorkerVersion: " + Decimal(Integrity.WorkerVersion)
  }

  /** The report names the exception type, the file and the line. */
  lemma MessageNames(excType: seq<char>, f: Frame)
    ensures var r := Message(excType, f);
      Contains(r, excType) && Contains(r, f.file) && Contains(r, Decimal(f.line))
  {
    var head := "Exception " + excType + " at ";
    var place := head + f.file + ":";
    var r := Message(excType, f);
    assert r[10..10 + |excType|] == excType;
    ContainsAt(r, excType, 10);
    assert r[|head|..|head| + |f.file|] == f.file;
    ContainsAt(r, f.file, |head|);
    assert r[|place|..|place| + |Decimal(f.line)|] == Decimal(f.line);
    ContainsAt(r, Decimal(f.line), |place|);
  }

  /** `get_exception(files)`: walk the traceback from its first frame while
      the frames lie in `files`, and report the last one visited. The
      traceback of a handled exception has at least one frame. */
  method GetException(excType: seq<char>, frames: seq<Frame>, files: seq<seq<char>>) returns (message: seq<char>)
    requires |frames| > 0
    ensures message == Message(excType, frames[ReportedIndex(frames, files)])
  {
    var i := 0;
    var f := frames[i];
    message := Message(excType, f);
    while f.file in files
      invariant 0 <= i < |frames| && f == frames[i]
      invariant forall k :: 0 <= k < i ==> frames[k].file in files
      invariant message == Message(excType, frames[if i == 0 then 0 else i - 1])
      decreases |frames| - i
    {
      message := Message(excType, f);
      i := i + 1;
      if i == |frames| {
        break;
      }
      f := frames[i];
    }
  }
}
