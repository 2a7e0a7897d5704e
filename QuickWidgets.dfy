/**
 * The sticky-note board of the quick widgets (QuickWidgets.tsx): the size a
 * note gets from its text, adding and deleting notes, and dragging a note with
 * the mouse, which deletes it when it is dropped entirely off screen.
 *
 * `Date.now()` is the `now` parameter, the two `Math.random()` draws for the
 * initial position are `rx` and `ry`, and the window size is `innerWidth` and
 * `innerHeight`. Positions are exact reals.
 */
module QuickWidgets {
  import opened Common

  // ---------------------------------------------------------------------
  // Splitting into lines
  // ---------------------------------------------------------------------

  function NewlineCount(s: string): nat {
    if s == [] then 0 else (if s[0] == '\n' then 1 else 0) + NewlineCount(s[1..])
  }

  /** `s.split('\n')`. */
  function SplitLines(s: string): (r: seq<string>)
    ensures |r| == NewlineCount(s) + 1
    ensures forall i :: 0 <= i < |r| ==> '\n' !in r[i]
  {
    if s == [] then [""]
    else
      var rest := SplitLines(s[1..]);
      if s[0] == '\n' then [""] + rest
      else
        var first := [s[0]] + rest[0];
        assert forall i :: 1 <= i < |rest| ==> ([first] + rest[1..])[i] == rest[i];
        [first] + rest[1..]
  }

  /** `lines.join('\n')`. */
  function JoinLines(lines: seq<string>): string
    requires lines != []
    decreases |lines|
  {
    if |lines| == 1 then lines[0] else lines[0] + "\n" + JoinLines(lines[1..])
  }

  /** Splitting loses nothing: joining the lines with '\n' gives the text back. */
  lemma {:induction false} JoinSplitLines(s: string)
    ensures JoinLines(SplitLines(s)) == s
    decreases |s|
  {
    if s != [] {
      JoinSplitLines(s[1..]);
      var rest := SplitLines(s[1..]);
      if s[0] == '\n' {
        assert SplitLines(s)[1..] == rest;
        assert s == "" + "\n" + s[1..];
      } else {
        var first := [s[0]] + rest[0];
        assert SplitLines(s) == [first] + rest[1..];
        if |rest| == 1 {
          assert s == first;
        } else {
          assert JoinLines(rest) == rest[0] + "\n" + JoinLines(rest[1..]);
          assert ([first] + rest[1..])[1..] == rest[1..];
          assert s == [s[0]] + s[1..];
        }
      }
    }
  }

  /** `Math.max(...lines.map(line => line.length))`, lengths in UTF-16 code units. */
  function MaxLength(lines: seq<string>): (r: nat)
    requires lines != []
    ensures forall i :: 0 <= i < |lines| ==> Utf16Length(lines[i]) <= r
    ensures exists i :: 0 <= i < |lines| && Utf16Length(lines[i]) == r
    decreases |lines|
  {
    if |lines| == 1 then Utf16Length(lines[0])
    else
      var m := MaxLength(lines[1..]);
      assert forall i :: 1 <= i < |lines| ==> lines[i] == lines[1..][i - 1];
      if Utf16Length(lines[0]) >= m then Utf16Length(lines[0]) else m
  }

  // ---------------------------------------------------------------------
  // calculateNoteSize
  // ---------------------------------------------------------------------

  datatype SizeCategory = Small | Medium | Large

  datatype NoteSize = NoteSize(width: nat, height: nat, fontSize: string, category: SizeCategory)

  /** The size table. */
  function SizeOf(c: SizeCategory): NoteSize {
    match c
    case Small => NoteSize(180, 120, "text-xs", Small)
    case Medium => NoteSize(280, 180, "text-sm", Medium)
    case Large => NoteSize(380, 280, "text-base", Large)
  }

  predicate FitsSmall(content: string) {
    Utf16Length(content) <= 50 && NewlineCount(content) + 1 <= 2 && MaxLength(SplitLines(content)) <= 30
  }

  predicate FitsMedium(content: string) {
    Utf16Length(content) <= 150 && NewlineCount(content) + 1 <= 4 && MaxLength(SplitLines(content)) <= 50
  }

  /**
   * The size of a note: small when short, medium when moderate, large
   * otherwise. Lengths are JavaScript's, so a character above U+FFFF, such as
   * most emoji, counts twice.
   */
  function CalculateNoteSize(content: string): (r: NoteSize)
    ensures r.category == Small <==> FitsSmall(content)
    ensures r.category == Medium <==> !FitsSmall(content) && FitsMedium(content)
    ensures r.category == Large <==> !FitsSmall(content) && !FitsMedium(content)
    ensures r == SizeOf(r.category)
  {
    var lines := SplitLines(content);
    var totalLength := Utf16Length(content);
    var category :=
      if totalLength <= 50 && |lines| <= 2 && MaxLength(lines) <= 30 then Small
      else if totalLength <= 150 && |lines| <= 4 && MaxLength(lines) <= 50 then Medium
      else Large;
    SizeOf(category)
  }

  function Rank(c: SizeCategory): nat {
    match c
    case Small => 0
    case Medium => 1
    case Large => 2
  }

  /** A larger category is strictly wider and strictly taller. */
  lemma SizesIncrease(a: SizeCategory, b: SizeCategory)
    requires Rank(a) < Rank(b)
    ensures SizeOf(a).width < SizeOf(b).width && SizeOf(a).height < SizeOf(b).height
  {
  }

  /** A longest line is never longer than the whole text. */
  lemma {:induction false} LinesWithinText(s: string)
    ensures forall i :: 0 <= i < |SplitLines(s)| ==> Utf16Length(SplitLines(s)[i]) <= Utf16Length(s)
    decreases |s|
  {
    if s != [] {
      LinesWithinText(s[1..]);
      var rest := SplitLines(s[1..]);
      if s[0] != '\n' {
        var first := [s[0]] + rest[0];
        assert first[1..] == rest[0];
        assert forall i :: 1 <= i < |SplitLines(s)| ==> SplitLines(s)[i] == rest[i];
      }
    }
  }

  /** A text without a newline is one line. */
  lemma {:induction false} NoNewlineOneLine(s: string)
    requires '\n' !in s
    ensures SplitLines(s) == [s]
    decreases |s|
  {
    if s != [] {
      assert s[0] in s;
      assert forall c :: c in s[1..] ==> c in s;
      NoNewlineOneLine(s[1..]);
      assert [s[0]] + s[1..] == s;
    }
  }

  /** Any one-line text of at most 30 code units gets the small size. */
  lemma ShortLineIsSmall(content: string)
    requires Utf16Length(content) <= 30 && '\n' !in content
    ensures CalculateNoteSize(content).category == Small
  {
    NoNewlineOneLine(content);
    NoNewlineNoCount(content);
  }

  /**
   * Characters above U+FFFF count twice: one line of 16 to 25 emoji is 32 to
   * 50 code units long, too long for a small note however few characters it has.
   */
  lemma AstralLineIsMedium(content: string)
    requires '\n' !in content && 16 <= |content| <= 25
    requires forall i :: 0 <= i < |content| ==> content[i] as int > 0xFFFF
    ensures CalculateNoteSize(content).category == Medium
  {
    NoNewlineOneLine(content);
    NoNewlineNoCount(content);
  }

  lemma {:induction false} NoNewlineNoCount(s: string)
    requires '\n' !in s
    ensures NewlineCount(s) == 0
    decreases |s|
  {
    if s != [] {
      assert s[0] in s;
      assert forall c :: c in s[1..] ==> c in s;
      NoNewlineNoCount(s[1..]);
    }
  }

  // ---------------------------------------------------------------------
  // The board
  // ---------------------------------------------------------------------

  datatype StickyNote = StickyNote(id: int, content: string, color: string, x: real, y: real,
                                   width: nat, height: nat, fontSize: string, sizeCategory: SizeCategory)

  /** `stickyNotes.find(n => n.id === id)`. */
  function FindNote(notes: seq<StickyNote>, id: int): (r: Option<StickyNote>)
    ensures r.None? <==> forall i :: 0 <= i < |notes| ==> notes[i].id != id
    ensures r.Some? ==> exists i :: 0 <= i < |notes| && notes[i] == r.value && r.value.id == id
                          && forall j :: 0 <= j < i ==> notes[j].id != id
  {
    if notes == [] then None
    else if notes[0].id == id then Some(notes[0])
    else
      var r := FindNote(notes[1..], id);
      assert forall i :: 1 <= i < |notes| ==> notes[i] == notes[1..][i - 1];
      r
  }

  /** `draggedNote` as the source tests it: set, and not the falsy id 0. */
  predicate Dragging(dragged: Option<int>) { dragged.Some? && dragged.value != 0 }

  /** Everything the board's handlers read and write. */
  datatype Board = Board(notes: seq<StickyNote>, newNote: string, selectedColor: string,
                         dragged: Option<int>, offsetX: real, offsetY: real, isNearEdge: bool)

  /** The note `addStickyNote` creates: trimmed text, size from the text as typed. */
  function NewNote(b: Board, now: int, rx: real, ry: real, innerWidth: real, innerHeight: real): (n: StickyNote)
    ensures n.content == Trim(b.newNote) && n.color == b.selectedColor && n.id == now
    ensures NoteSize(n.width, n.height, n.fontSize, n.sizeCategory) == CalculateNoteSize(b.newNote)
  {
    var size := CalculateNoteSize(b.newNote);
    StickyNote(now, Trim(b.newNote), b.selectedColor,
               rx * (innerWidth - size.width as real - 100.0) + 50.0,
               ry * (innerHeight - size.height as real - 100.0) + 50.0,
               size.width, size.height, size.fontSize, size.category)
  }

  function AddStep(b: Board, now: int, rx: real, ry: real, innerWidth: real, innerHeight: real): (r: Board)
    ensures IsBlank(b.newNote) ==> r == b
    ensures !IsBlank(b.newNote) ==>
      r == b.(notes := b.notes + [NewNote(b, now, rx, ry, innerWidth, innerHeight)], newNote := "")
  {
    if Trim(b.newNote) != [] then
      b.(notes := b.notes + [NewNote(b, now, rx, ry, innerWidth, innerHeight)], newNote := "")
    else b
  }

  /** The notes without those with the id, in order. */
  function WithoutNote(notes: seq<StickyNote>, id: int): (r: seq<StickyNote>)
    ensures forall i :: 0 <= i < |r| ==> r[i].id != id
    ensures forall i :: 0 <= i < |notes| && notes[i].id != id ==> notes[i] in r
    ensures forall n :: n in r ==> n in notes
    ensures (forall i :: 0 <= i < |notes| ==> notes[i].id != id) ==> r == notes
  {
    Filter(notes, (n: StickyNote) => n.id != id)
  }

  /** `handleMouseDown`: start dragging a note that exists, remembering where it was grabbed. */
  function DownStep(b: Board, noteId: int, clientX: real, clientY: real): (r: Board)
    ensures FindNote(b.notes, noteId).None? ==> r == b
    ensures FindNote(b.notes, noteId).Some? ==>
      var n := FindNote(b.notes, noteId).value;
      r == b.(dragged := Some(noteId), offsetX := clientX - n.x, offsetY := clientY - n.y)
  {
    match FindNote(b.notes, noteId)
    case None => b
    case Some(n) => b.(dragged := Some(noteId), offsetX := clientX - n.x, offsetY := clientY - n.y)
  }

  /** The note lies wholly outside the window. */
  predicate Outside(x: real, y: real, n: StickyNote, innerWidth: real, innerHeight: real) {
    x + n.width as real < 0.0 || y + n.height as real < 0.0 || x > innerWidth || y > innerHeight
  }

  const EdgeThreshold: real := 50.0

  /** The note reaches more than the threshold past some edge of the window. */
  predicate NearEdge(x: real, y: real, n: StickyNote, innerWidth: real, innerHeight: real) {
    x < -EdgeThreshold || y < -EdgeThreshold
    || x + n.width as real > innerWidth + EdgeThreshold || y + n.height as real > innerHeight + EdgeThreshold
  }

  /** `stickyNotes.map(...)` in `handleMouseMove`: the notes with the id moved to `(x, y)`. */
  function MoveNote(notes: seq<StickyNote>, id: int, x: real, y: real): seq<StickyNote>
    decreases |notes|
  {
    if notes == [] then []
    else [if notes[0].id == id then notes[0].(x := x, y := y) else notes[0]] + MoveNote(notes[1..], id, x, y)
  }

  /** Every note with the id is moved to `(x, y)`, every other note is unchanged, in place. */
  lemma {:induction false} MoveNoteContents(notes: seq<StickyNote>, id: int, x: real, y: real)
    ensures |MoveNote(notes, id, x, y)| == |notes|
    ensures forall i :: 0 <= i < |notes| ==>
      MoveNote(notes, id, x, y)[i] == if notes[i].id == id then notes[i].(x := x, y := y) else notes[i]
    decreases |notes|
  {
    if notes != [] {
      MoveNoteContents(notes[1..], id, x, y);
      assert forall i :: 1 <= i < |notes| ==>
        MoveNote(notes, id, x, y)[i] == MoveNote(notes[1..], id, x, y)[i - 1] && notes[i] == notes[1..][i - 1];
    }
  }

  /** `handleMouseMove`. */
  function MoveStep(b: Board, clientX: real, clientY: real, innerWidth: real, innerHeight: real): Board {
    if !Dragging(b.dragged) then b
    else
      var id := b.dragged.value;
      var x, y := clientX - b.offsetX, clientY - b.offsetY;
      match FindNote(b.notes, id)
      case None => b
      case Some(n) =>
        if Outside(x, y, n, innerWidth, innerHeight) then
          b.(notes := WithoutNote(b.notes, id), dragged := None, isNearEdge := false)
        else
          b.(notes := MoveNote(b.notes, id, x, y), isNearEdge := NearEdge(x, y, n, innerWidth, innerHeight))
  }

  /** `handleMouseUp`. */
  function UpStep(b: Board): (r: Board)
    ensures !Dragging(r.dragged) && r.notes == b.notes
    ensures Dragging(b.dragged) ==> r == b.(dragged := None, isNearEdge := false)
  {
    if Dragging(b.dragged) then b.(dragged := None, isNearEdge := false) else b
  }

  /**
   * While dragging, a move that would put the note wholly outside the window
   * deletes every note with the dragged id, keeps the others and ends the drag.
   */
  lemma MoveOffScreen(b: Board, clientX: real, clientY: real, innerWidth: real, innerHeight: real)
    requires Dragging(b.dragged) && FindNote(b.notes, b.dragged.value).Some?
    requires Outside(clientX - b.offsetX, clientY - b.offsetY, FindNote(b.notes, b.dragged.value).value, innerWidth, innerHeight)
    ensures var r := MoveStep(b, clientX, clientY, innerWidth, innerHeight);
      && r.dragged == None && !r.isNearEdge
      && (forall i :: 0 <= i < |r.notes| ==> r.notes[i].id != b.dragged.value)
      && (forall i :: 0 <= i < |b.notes| && b.notes[i].id != b.dragged.value ==> b.notes[i] in r.notes)
  {
    var id, n := b.dragged.value, FindNote(b.notes, b.dragged.value).value;
    MoveStepDrops(b, clientX, clientY, innerWidth, innerHeight, id, n, clientX - b.offsetX, clientY - b.offsetY);
  }

  /**
   * Otherwise the move keeps the drag, moves only the dragged note to the
   * pointer minus the grab offset, and flags whether it is near an edge.
   */
  lemma MoveOnScreen(b: Board, clientX: real, clientY: real, innerWidth: real, innerHeight: real)
    requires Dragging(b.dragged) && FindNote(b.notes, b.dragged.value).Some?
    requires !Outside(clientX - b.offsetX, clientY - b.offsetY, FindNote(b.notes, b.dragged.value).value, innerWidth, innerHeight)
    ensures var id, x, y := b.dragged.value, clientX - b.offsetX, clientY - b.offsetY;
      var r := MoveStep(b, clientX, clientY, innerWidth, innerHeight);
      && r.dragged == b.dragged && |r.notes| == |b.notes|
      && r.isNearEdge == NearEdge(x, y, FindNote(b.notes, id).value, innerWidth, innerHeight)
      && (forall i :: 0 <= i < |b.notes| ==>
            r.notes[i] == if b.notes[i].id == id then b.notes[i].(x := x, y := y) else b.notes[i])
  {
    var id, n := b.dragged.value, FindNote(b.notes, b.dragged.value).value;
    var x, y := clientX - b.offsetX, clientY - b.offsetY;
    MoveStepMoves(b, clientX, clientY, innerWidth, innerHeight, id, n, x, y);
    MoveNoteContents(b.notes, id, x, y);
  }

  /** A move of an existing note that stays on screen, in terms of the caller's own values. */
  lemma MoveStepMoves(b: Board, clientX: real, clientY: real, innerWidth: real, innerHeight: real,
                      id: int, n: StickyNote, x: real, y: real)
    requires b.dragged == Some(id) && id != 0 && FindNote(b.notes, id) == Some(n)
    requires x == clientX - b.offsetX && y == clientY - b.offsetY && !Outside(x, y, n, innerWidth, innerHeight)
    ensures MoveStep(b, clientX, clientY, innerWidth, innerHeight)
      == b.(notes := MoveNote(b.notes, id, x, y), isNearEdge := NearEdge(x, y, n, innerWidth, innerHeight))
  {
  }

  /** A move of an existing note off screen, in terms of the caller's own values. */
  lemma MoveStepDrops(b: Board, clientX: real, clientY: real, innerWidth: real, innerHeight: real,
                      id: int, n: StickyNote, x: real, y: real)
    requires b.dragged == Some(id) && id != 0 && FindNote(b.notes, id) == Some(n)
    requires x == clientX - b.offsetX && y == clientY - b.offsetY && Outside(x, y, n, innerWidth, innerHeight)
    ensures MoveStep(b, clientX, clientY, innerWidth, innerHeight)
      == b.(notes := WithoutNote(b.notes, id), dragged := None, isNearEdge := false)
  {
  }

  /** A move without a drag in progress changes nothing. */
  lemma MoveWithoutDrag(b: Board, clientX: real, clientY: real, innerWidth: real, innerHeight: real)
    requires !Dragging(b.dragged)
    ensures MoveStep(b, clientX, clientY, innerWidth, innerHeight) == b
  {
  }

  /**
   * Grabbing a note and moving the pointer nowhere leaves every note where it
   * was, when ids are distinct and the note is on screen.
   */
  lemma GrabWithoutMoving(b: Board, noteId: int, clientX: real, clientY: real, innerWidth: real, innerHeight: real)
    requires noteId != 0 && FindNote(b.notes, noteId).Some?
    requires forall i, j :: 0 <= i < j < |b.notes| ==> b.notes[i].id != b.notes[j].id
    requires var n := FindNote(b.notes, noteId).value; !Outside(n.x, n.y, n, innerWidth, innerHeight)
    ensures MoveStep(DownStep(b, noteId, clientX, clientY), clientX, clientY, innerWidth, innerHeight).notes == b.notes
  {
    var n := FindNote(b.notes, noteId).value;
    var d := DownStep(b, noteId, clientX, clientY);
    assert d == b.(dragged := Some(noteId), offsetX := clientX - n.x, offsetY := clientY - n.y);
    MoveStepMoves(d, clientX, clientY, innerWidth, innerHeight, noteId, n, n.x, n.y);
    MoveToOwnPlace(b.notes, n);
  }

  /** With distinct ids, moving a note to where it already is changes no note. */
  lemma MoveToOwnPlace(notes: seq<StickyNote>, n: StickyNote)
    requires forall i, j :: 0 <= i < j < |notes| ==> notes[i].id != notes[j].id
    requires n in notes
    ensures MoveNote(notes, n.id, n.x, n.y) == notes
  {
    var r := MoveNote(notes, n.id, n.x, n.y);
    MoveNoteContents(notes, n.id, n.x, n.y);
    var k :| 0 <= k < |notes| && notes[k] == n;
    forall i | 0 <= i < |notes| ensures r[i] == notes[i] {
      if notes[i].id == n.id {
        assert i == k;
      }
    }
  }

  /** Dropping a note off screen and letting go leaves no note with its id and no drag. */
  lemma DropOffScreen(b: Board, clientX: real, clientY: real, innerWidth: real, innerHeight: real)
    requires Dragging(b.dragged) && FindNote(b.notes, b.dragged.value).Some?
    requires Outside(clientX - b.offsetX, clientY - b.offsetY, FindNote(b.notes, b.dragged.value).value, innerWidth, innerHeight)
    ensures var r := UpStep(MoveStep(b, clientX, clientY, innerWidth, innerHeight));
      FindNote(r.notes, b.dragged.value).None? && !Dragging(r.dragged) && |r.notes| < |b.notes|
  {
    var id := b.dragged.value;
    var r := MoveStep(b, clientX, clientY, innerWidth, innerHeight);
    FilterDropsOne(b.notes, id);
  }

  lemma {:induction false} FilterDropsOne(notes: seq<StickyNote>, id: int)
    requires exists i :: 0 <= i < |notes| && notes[i].id == id
    ensures |WithoutNote(notes, id)| < |notes|
    decreases |notes|
  {
    if notes[0].id != id {
      var i :| 0 <= i < |notes| && notes[i].id == id;
      assert notes[1..][i - 1].id == id;
      FilterDropsOne(notes[1..], id);
    }
  }

  /** The widget's note board. */
  class StickyBoard {
    var notes: seq<StickyNote>
    var newNote: string
    var selectedColor: string
    var draggedNote: Option<int>
    var offsetX: real
    var offsetY: real
    var isNearEdge: bool

    function State(): Board
      reads this
    {
      Board(notes, newNote, selectedColor, draggedNote, offsetX, offsetY, isNearEdge)
    }

    /** The widget as it opens: the stored notes, an empty input, yellow selected, no drag. */
    constructor (stored: seq<StickyNote>)
      ensures State() == Board(stored, "", "yellow", None, 0.0, 0.0, false)
    {
      notes, newNote, selectedColor := stored, "", "yellow";
      draggedNote, offsetX, offsetY, isNearEdge := None, 0.0, 0.0, false;
    }

    method AddStickyNote(now: int, rx: real, ry: real, innerWidth: real, innerHeight: real)
      modifies this
      ensures State() == AddStep(old(State()), now, rx, ry, innerWidth, innerHeight)
    {
      ghost var b := State();
      if Trim(newNote) != [] {
        var note := NewNote(State(), now, rx, ry, innerWidth, innerHeight);
        notes, newNote := notes + [note], "";
        assert State() == b.(notes := b.notes + [note], newNote := "");
      }
    }

    method DeleteStickyNote(id: int)
      modifies this
      ensures State() == old(State()).(notes := WithoutNote(old(notes), id))
    {
      notes := WithoutNote(notes, id);
    }

    method HandleMouseDown(noteId: int, clientX: real, clientY: real)
      modifies this
      ensures State() == DownStep(old(State()), noteId, clientX, clientY)
    {
      var found := FindNote(notes, noteId);
      if found.None? {
        return;
      }
      draggedNote := Some(noteId);
      offsetX, offsetY := clientX - found.value.x, clientY - found.value.y;
    }

    method HandleMouseMove(clientX: real, clientY: real, innerWidth: real, innerHeight: real)
      modifies this
      ensures State() == MoveStep(old(State()), clientX, clientY, innerWidth, innerHeight)
    {
      ghost var b := State();
      if Dragging(draggedNote) {
        var id := draggedNote.value;
        var newX, newY := clientX - offsetX, clientY - offsetY;
        var found := FindNote(notes, id);
        if found.Some? {
          var n := found.value;
          if Outside(newX, newY, n, innerWidth, innerHeight) {
            MoveStepDrops(b, clientX, clientY, innerWidth, innerHeight, id, n, newX, newY);
            notes, draggedNote, isNearEdge := WithoutNote(notes, id), None, false;
          } else {
            MoveStepMoves(b, clientX, clientY, innerWidth, innerHeight, id, n, newX, newY);
            notes, isNearEdge := MoveNote(notes, id, newX, newY), NearEdge(newX, newY, n, innerWidth, innerHeight);
          }
        }
      }
    }

    method HandleMouseUp()
      modifies this
      ensures State() == UpStep(old(State()))
    {
      if Dragging(draggedNote) {
        draggedNote := None;
        isNearEdge := false;
      }
    }
  }
}
