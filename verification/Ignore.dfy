/** The list of ignored contents and the file that keeps it between runs. */
module Ignore {
  import opened Wrappers
  import opened Text

  datatype ReadOutcome = Read(text: string) | NotFound | Failed

  /** A line "#id" names an ignored content; every other line is left aside. */
  function IdOf(line: string): Option<I32> {
    if line != "" && line[0] == '#' then ParseI32(line[1..]) else None
  }

  function IdsOf(lines: seq<string>, n: nat): seq<I32>
    requires n <= |lines|
  {
    if n == 0 then []
    else IdsOf(lines, n - 1) + (if IdOf(lines[n - 1]).Some? then [IdOf(lines[n - 1]).value] else [])
  }

  function Parse(text: string): seq<I32> {
    IdsOf(Lines(text), |Lines(text)|)
  }

  function LineOf(id: I32): string {
    "#" + FormatInt(id)
  }

  function LinesFor(ids: seq<I32>): (lines: seq<string>)
    ensures |lines| == |ids| && forall k :: 0 <= k < |ids| ==> lines[k] == LineOf(ids[k])
  {
    seq(|ids|, k requires 0 <= k < |ids| => LineOf(ids[k]))
  }

  function Render(ids: seq<I32>): string {
    Join(LinesFor(ids))
  }

  /** Writing without truncating: what was longer keeps its end. */
  function Overwrite(old_: string, text: string): string {
    if |old_| <= |text| then text else text + old_[|text|..]
  }

  class Ignore {
    var contentIds: seq<I32>

    constructor Empty()
      ensures contentIds == []
    {
      contentIds := [];
    }

    /** No file is an empty list; another error is reported. */
    static method From(read: ReadOutcome) returns (r: Result<Ignore, ()>)
      ensures r.Err? <==> read.Failed?
      ensures r.Ok? ==> fresh(r.value) && r.value.contentIds == if read.Read? then Parse(read.text) else []
    {
      var text := "";
      match read {
        case Read(content) => text := content;
        case NotFound =>
        case Failed => return Err(());
      }
      var ignore := new Ignore.Empty();
      var lines := Lines(text);
      for i := 0 to |lines|
        invariant fresh(ignore) && ignore.contentIds == IdsOf(lines, i)
      {
        var line := lines[i];
        if line != "" && line[0] == '#' {
          var id := ParseI32(line[1..]);
          if id.Some? {
            ignore.contentIds := ignore.contentIds + [id.value];
          }
        }
      }
      r := Ok(ignore);
    }

    method Push(id: I32)
      modifies this
      ensures contentIds == old(contentIds) + [id]
    {
      contentIds := contentIds + [id];
    }

    method ToText() returns (text: string)
      ensures text == Render(contentIds)
    {
      var lines: seq<string> := [];
      for i := 0 to |contentIds|
        invariant |lines| == i && forall k :: 0 <= k < i ==> lines[k] == LineOf(contentIds[k])
      {
        lines := lines + ["#" + FormatInt(contentIds[i])];
      }
      assert lines == LinesFor(contentIds);
      text := Join(lines);
    }

    method Write(file: Option<string>) returns (now: string)
      ensures now == Overwrite(if file.Some? then file.value else "", Render(contentIds))
    {
      var text := ToText();
      now := Overwrite(if file.Some? then file.value else "", text);
    }
  }

  // ---- The round trip

  lemma ParseLine(id: I32)
    ensures IdOf(LineOf(id)) == Some(id) && IsLine(LineOf(id))
  {
    ParseFormatted(id);
    assert LineOf(id)[1..] == FormatInt(id);
    assert AllDigits(Digits(Magnitude(id)));
  }

  lemma {:induction false} IdsOfLines(ids: seq<I32>, n: nat)
    requires n <= |ids|
    ensures IdsOf(LinesFor(ids), n) == ids[..n]
  {
    hide LinesFor, IdOf, LineOf;
    if n > 0 {
      IdsOfLines(ids, n - 1);
      ParseLine(ids[n - 1]);
      assert ids[..n] == ids[..n - 1] + [ids[n - 1]];
    }
  }

  /** Reading a written list gives the same list. */
  lemma ParseRender(ids: seq<I32>)
    ensures Parse(Render(ids)) == ids
  {
    hide LinesFor, LineOf, IsLine, Lines, Join, IdsOf;
    forall k | 0 <= k < |ids| ensures IsLine(LinesFor(ids)[k]) {
      ParseLine(ids[k]);
    }
    LinesOfJoin(LinesFor(ids));
    IdsOfLines(ids, |ids|);
    assert ids[..|ids|] == ids;
  }

  /** A longer list has a rendering that starts with the shorter one's. */
  lemma RenderExtends(ids: seq<I32>, more: seq<I32>)
    ensures Render(ids) <= Render(ids + more)
  {
    hide LinesFor, LineOf;
    assert LinesFor(ids + more) == LinesFor(ids) + LinesFor(more);
    JoinExtends(LinesFor(ids), LinesFor(more));
  }

  /** A line that names an ignored content: a hash sign and a numeral in range. */
  ghost predicate Names(line: string, id: I32) {
    exists sign, digits ::
      line == "#" + (sign + digits) && Numeral(sign + digits, sign, digits) && id == Signed(sign, digits)
  }

  lemma IdIsNamed(line: string, id: I32)
    ensures IdOf(line) == Some(id) <==> Names(line, id)
  {
    hide Value, ParseI32;
    if line != "" && line[0] == '#' {
      assert line == "#" + line[1..];
      Text.ParseIsExact(line[1..], id);
      forall sign, digits | line == "#" + (sign + digits) ensures line[1..] == sign + digits {
      }
    }
  }

  /** `picks` are the positions before `n` of the lines that name a content, in order. */
  ghost predicate NamingLines(picks: seq<nat>, lines: seq<string>, n: nat)
    requires n <= |lines|
  {
    && (forall i :: i in picks <==> 0 <= i < n && exists id: I32 :: Names(lines[i], id))
    && (forall a, b :: 0 <= a < b < |picks| ==> picks[a] < picks[b])
  }

  lemma {:induction false} IdsAreNamed(lines: seq<string>, n: nat) returns (picks: seq<nat>)
    requires n <= |lines|
    ensures NamingLines(picks, lines, n) && |IdsOf(lines, n)| == |picks|
    ensures forall k :: 0 <= k < |picks| ==> picks[k] < n && Names(lines[picks[k]], IdsOf(lines, n)[k])
  {
    hide Names, IdOf;
    picks := [];
    if n > 0 {
      picks := IdsAreNamed(lines, n - 1);
      forall id: I32 ensures IdOf(lines[n - 1]) == Some(id) <==> Names(lines[n - 1], id) {
        IdIsNamed(lines[n - 1], id);
      }
      var before := picks;
      if IdOf(lines[n - 1]).Some? {
        assert Names(lines[n - 1], IdOf(lines[n - 1]).value);
        picks := picks + [n - 1];
      }
      forall i ensures i in picks <==> 0 <= i < n && exists id: I32 :: Names(lines[i], id) {
        assert i in picks <==> i in before || (i == n - 1 && IdOf(lines[n - 1]).Some?);
        if i == n - 1 && exists id: I32 :: Names(lines[i], id) {
          var id: I32 :| Names(lines[i], id);
          assert IdOf(lines[n - 1]) == Some(id);
        }
      }
    }
  }

  /** Reading a file gives the ids that its lines name, in order, one for each naming line. */
  lemma ParseIsExact(text: string) returns (picks: seq<nat>)
    ensures NamingLines(picks, Lines(text), |Lines(text)|) && |Parse(text)| == |picks|
    ensures forall k :: 0 <= k < |picks| ==> picks[k] < |Lines(text)| && Names(Lines(text)[picks[k]], Parse(text)[k])
  {
    picks := IdsAreNamed(Lines(text), |Lines(text)|);
  }

  // ---- Runs

  datatype Op = Reread | Push(id: I32) | Write

  /** The list in memory and the file on disk. */
  datatype Session = Session(ids: seq<I32>, file: Option<string>)

  function Step(s: Session, op: Op): Session {
    match op
    case Reread => s.(ids := if s.file.Some? then Parse(s.file.value) else [])
    case Push(id) => s.(ids := s.ids + [id])
    case Write => s.(file := Some(Overwrite(if s.file.Some? then s.file.value else "", Render(s.ids))))
  }

  function Run(s: Session, ops: seq<Op>, n: nat): Session
    requires n <= |ops|
  {
    if n == 0 then s else Step(Run(s, ops, n - 1), ops[n - 1])
  }

  /** The same run on lists alone: what is in memory, and what was saved last. */
  datatype Ledger = Ledger(ids: seq<I32>, saved: seq<I32>)

  function Keep(l: Ledger, op: Op): Ledger {
    match op
    case Reread => l.(ids := l.saved)
    case Push(id) => l.(ids := l.ids + [id])
    case Write => l.(saved := l.ids)
  }

  function Kept(l: Ledger, ops: seq<Op>, n: nat): Ledger
    requires n <= |ops|
  {
    if n == 0 then l else Keep(Kept(l, ops, n - 1), ops[n - 1])
  }

  /** The file, if any, holds exactly what was saved, and the list in memory extends it. */
  ghost predicate Follows(s: Session, l: Ledger) {
    && s.ids == l.ids && l.saved <= l.ids
    && s.file == (if s.file.None? then None else Some(Render(l.saved)))
    && (s.file.None? ==> l.saved == [])
  }

  /**
   Over any sequence of readings, pushes and writings, from no file or from a written
   one, the file is always the exact rendering of the list last saved, and saving never
   drops what was saved before.
   */
  lemma {:induction false} FileFollowsList(s: Session, l: Ledger, ops: seq<Op>, n: nat)
    requires n <= |ops| && Follows(s, l)
    ensures Follows(Run(s, ops, n), Kept(l, ops, n)) && l.saved <= Kept(l, ops, n).saved
  {
    hide Parse, Render;
    if n > 0 {
      FileFollowsList(s, l, ops, n - 1);
      var before, kept := Run(s, ops, n - 1), Kept(l, ops, n - 1);
      if before.file.Some? {
        ParseRender(kept.saved);
        RenderExtends(kept.saved, kept.ids[|kept.saved|..]);
        assert kept.saved + kept.ids[|kept.saved|..] == kept.ids;
      }
    }
  }

  function Pushed(ops: seq<Op>, n: nat): seq<I32>
    requires n <= |ops|
  {
    if n == 0 then [] else Pushed(ops, n - 1) + (if ops[n - 1].Push? then [ops[n - 1].id] else [])
  }

  /** When the list is never read again before it is written, the file ends with every pushed id, in order. */
  lemma {:induction false} NoPushIsLost(l: Ledger, ops: seq<Op>, n: nat)
    requires n <= |ops| && l.ids == l.saved
    requires forall k :: 0 <= k < n && ops[k].Reread? ==> Kept(l, ops, k).ids == Kept(l, ops, k).saved
    ensures Kept(l, ops, n).ids == l.saved + Pushed(ops, n)
    ensures n > 0 && ops[n - 1].Write? ==> Kept(l, ops, n).saved == l.saved + Pushed(ops, n)
  {
    if n > 0 {
      NoPushIsLost(l, ops, n - 1);
    }
  }

  // ---- Writing over a longer file

  lemma {:induction false} IdsOfSum(a: seq<string>, b: seq<string>, n: nat)
    requires n <= |b|
    ensures IdsOf(a + b, |a| + n) == IdsOf(a, |a|) + IdsOf(b, n)
    decreases n
  {
    hide IdOf;
    if n > 0 {
      IdsOfSum(a, b, n - 1);
      assert (a + b)[|a| + n - 1] == b[n - 1];
    } else {
      IdsOfPrefix(a, b, |a|);
    }
  }

  lemma {:induction false} IdsOfPrefix(a: seq<string>, b: seq<string>, n: nat)
    requires n <= |a|
    ensures IdsOf(a + b, n) == IdsOf(a, n)
  {
    hide IdOf;
    if n > 0 {
      IdsOfPrefix(a, b, n - 1);
    }
  }

  function IdList(line: string): seq<I32> {
    if IdOf(line).Some? then [IdOf(line).value] else []
  }

  /** What is left of the file beyond the text changes the last line written and may add lines. */
  lemma ParseProlongedText(ids: seq<I32>, tail: string)
    requires ids != []
    ensures Parse(Render(ids) + tail) ==
            ids[..|ids| - 1] + (IdList(LineOf(ids[|ids| - 1]) + FirstPiece(tail)) + Parse(AfterFirst(tail)))
  {
    hide IdOf, LineOf, LinesFor, Lines, FirstPiece, AfterFirst, IsLine;
    var n, lines, last := |ids| - 1, LinesFor(ids), LineOf(ids[|ids| - 1]);
    forall k | 0 <= k < |ids| ensures IsLine(lines[k]) {
      ParseLine(ids[k]);
    }
    ParseLine(ids[n]);
    LinesProlonged(lines, tail);
    GluedLines(last, tail);
    var first, rest := [last + FirstPiece(tail)], Lines(AfterFirst(tail));
    IdsOfSum(lines[..n], first + rest, |first + rest|);
    IdsOfSum(first, rest, |rest|);
    assert IdsOf(first, 1) == IdsOf(first, 0) + IdList(first[0]);
    assert lines[..n] + [lines[n]] == lines;
    IdsOfPrefix(lines[..n], [lines[n]], n);
    IdsOfLines(ids, n);
  }

  /** The tail leaves the last id as it is, and adds none; or it spoils the last id and brings it back. */
  predicate LeavesLast(id: I32, tail: string) {
    var piece, rest := FirstPiece(tail), Parse(AfterFirst(tail));
    || ((piece == "" || (id == 0 && AllZeros(piece))) && rest == [])
    || (IdOf(LineOf(id) + piece).None? && rest == [id])
  }

  /** What a file longer than the text must look like beyond it. */
  predicate TailFits(file: string, ids: seq<I32>) {
    |file| > |Render(ids)| ==>
      if ids == [] then Parse(file) == [] else LeavesLast(ids[|ids| - 1], file[|Render(ids)|..])
  }

  /** The ids read back are those written if and only if what the file holds beyond the text leaves the last id alone. */
  lemma WriteReadsBack(file: string, ids: seq<I32>)
    ensures Parse(Overwrite(file, Render(ids))) == ids <==> TailFits(file, ids)
  {
    hide Parse, IdOf, LineOf, FirstPiece, AfterFirst;
    var text := Render(ids);
    if |file| <= |text| {
      ParseRender(ids);
    } else if ids == [] {
      assert text == "" && "" + file[0..] == file;
    } else {
      var last, tail := ids[|ids| - 1], file[|text|..];
      ParseProlongedText(ids, tail);
      LastProlonged(last, FirstPiece(tail));
      var front, added, rest := ids[..|ids| - 1], IdList(LineOf(last) + FirstPiece(tail)), Parse(AfterFirst(tail));
      assert front + [last] == ids;
      assert front + (added + rest) == ids <==> added + rest == [last] by {
        if front + (added + rest) == ids {
          assert (front + (added + rest))[|front|..] == added + rest && ids[|front|..] == [last];
        }
      }
      assert added == [] ==> added + rest == rest;
      assert added != [] ==> (added + rest == [last] <==> added == [last] && rest == []) by {
        if added != [] && added + rest == [last] {
          assert (added + rest)[0] == added[0] && |rest| == 0;
        }
      }
    }
  }

  lemma LastProlonged(id: I32, piece: string)
    ensures IdOf(LineOf(id) + piece) == Some(id) <==> piece == "" || (id == 0 && AllZeros(piece))
  {
    hide ParseI32, FormatInt;
    ParseProlonged(id, piece);
    assert (LineOf(id) + piece)[1..] == FormatInt(id) + piece;
  }

  /** A hand-written file is safe to write over where the text ends at the end of a line and only comments follow. */
  lemma CommentsAreSafe(file: string, ids: seq<I32>)
    requires ids != [] && |file| > |Render(ids)|
    requires file[|Render(ids)|] == '\n' && Parse(file[|Render(ids)| + 1..]) == []
    ensures Parse(Overwrite(file, Render(ids))) == ids
  {
    hide Parse, Render, IdOf, LineOf;
    var tail := file[|Render(ids)|..];
    assert tail[0] == '\n' && IndexOf(tail, '\n', 0) == 0 && tail[..0] == "";
    assert tail[1..] == file[|Render(ids)| + 1..];
    WriteReadsBack(file, ids);
  }

  lemma TwoLines(a: string, b: string)
    requires IsLine(a) && IsLine(b)
    ensures Lines(a + "\n" + b) == [a, b]
  {
    LinesOfJoin([a, b]);
    assert [a, b][1..] == [b] && Join([b]) == b;
  }

  lemma ParseTwoLines(a: string, b: string)
    requires IsLine(a) && IsLine(b) && IdOf(b).Some?
    ensures Parse(a + "\n" + b) == (if IdOf(a).Some? then [IdOf(a).value] else []) + [IdOf(b).value]
  {
    hide IdOf;
    TwoLines(a, b);
    assert IdsOf([a, b], 1) == IdsOf([a, b], 0) + (if IdOf(a).Some? then [IdOf(a).value] else []);
  }

  lemma SmallLines()
    ensures IdOf("# 1").None? && IdOf("#2") == Some(2) && IdOf("#32") == Some(32)
  {
    assert "#32"[1..] == "32" && Value("32") == Value("3") * 10 + 2;
  }

  lemma SmallRendering()
    ensures Render([2, 3]) == "#2\n#3"
  {
    var ids: seq<I32> := [2, 3];
    assert Digits(2) == "2" && Digits(3) == "3";
    assert LineOf(ids[0]) == "#2" && LineOf(ids[1]) == "#3";
    assert LinesFor(ids) == ["#2", "#3"];
  }

  /** A file with a comment is longer than its rendering: pushing 3 onto it is lost, and 32 is ignored instead. */
  lemma LongerFileLosesId()
    ensures var file := "# 1\n#2";
            Parse(file) == [2] && Parse(Overwrite(file, Render(Parse(file) + [3]))) == [2, 32]
  {
    hide Parse, Render, IdOf;
    var file := "# 1\n#2";
    SmallLines();
    SmallRendering();
    ParseTwoLines("# 1", "#2");
    ParseTwoLines("#2", "#32");
    assert file == "# 1" + "\n" + "#2";
    assert Parse(file) + [3] == [2, 3];
    assert Overwrite(file, "#2\n#3") == "#2" + "\n" + "#32";
  }
}
