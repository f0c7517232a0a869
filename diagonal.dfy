/** The diagonal layout of the CoreProcess policy. It reads the single data row after the
    header, never draws column 3, and places the other columns on the seven diagonal slots
    s = 0..6 at (s * W / 7, s * H / 7). Columns 0 and 5 each yield a white rounded
    rectangle with the full cell text and a red oval with the cell's first word. */
module Diagonal {
  import opened Wrappers
  import opened Text
  import opened Descriptors

  /** Number of diagonal slots the canvas is divided into. */
  const SlotCount: nat := 7

  /** The shapes a builder has added so far and, if it stopped early, why. */
  datatype Built = Built(shapes: seq<Shape>, failure: Option<Failure>)

  function SlotShape(kind: Kind, slot: nat, fill: Fill, text: string): Shape {
    Shape(kind, Slot(slot), NodeWidth, NodeHeight, fill, text)
  }

  function Last(row: seq<string>): string
    requires row != []
  {
    row[|row| - 1]
  }

  /** Reference definition of the diagonal layout of `row`, column by column: column 0
      gives its rectangle (slot 0) and oval (slot 1), columns 1, 2 and 4 one oval each
      (slots 2, 3 and 4), column 5 its rectangle (slot 6) and oval (slot 5). Every column
      after the sixth relabels column 5's rectangle, so that rectangle ends up carrying the
      last cell of the row. A blank column 0 stops the layout before any shape; a blank
      column 5 stops it after the shapes of columns 0 to 4. */
  function DiagonalLayout(row: seq<string>): (r: Built)
    ensures |r.shapes| <= SlotCount
    ensures r.failure.Some? ==> r.failure.value == BlankLabel(0) || r.failure.value == BlankLabel(5)
    ensures r.failure == Some(BlankLabel(0)) ==> r.shapes == []
    ensures r.failure == Some(BlankLabel(5)) ==> |r.shapes| == 5
  {
    if |row| == 0 then Built([], None)
    else match FirstWord(row[0])
      case None => Built([], Some(BlankLabel(0)))
      case Some(first) =>
        var opening := [SlotShape(RoundedRect, 0, White, row[0]), SlotShape(Oval, 1, Red, first)]
                       + (if |row| > 1 then [SlotShape(Oval, 2, Green, row[1])] else [])
                       + (if |row| > 2 then [SlotShape(Oval, 3, Red, row[2])] else [])
                       + (if |row| > 4 then [SlotShape(Oval, 4, Green, row[4])] else []);
        if |row| <= 5 then Built(opening, None)
        else match FirstWord(row[5])
          case None => Built(opening, Some(BlankLabel(5)))
          case Some(closing) =>
            Built(opening + [SlotShape(RoundedRect, 6, White, Last(row)), SlotShape(Oval, 5, Red, closing)], None)
  }

  /** The slot a shape occupies; only diagonal shapes have one. */
  function SlotOf(s: Shape): nat {
    if s.at.Slot? then s.at.index else SlotCount
  }

  /** All shapes of the layout sit on distinct slots among the seven. */
  lemma DiagonalSlotsDistinct(row: seq<string>)
    ensures var shapes := DiagonalLayout(row).shapes;
            && |shapes| <= SlotCount
            && (forall a :: 0 <= a < |shapes| ==> shapes[a].at.Slot? && SlotOf(shapes[a]) < SlotCount)
            && (forall a, b :: 0 <= a < b < |shapes| ==> SlotOf(shapes[a]) != SlotOf(shapes[b]))
  {
    var shapes := DiagonalLayout(row).shapes;
    forall a | 0 <= a < |shapes|
      ensures shapes[a].at.Slot? && SlotOf(shapes[a]) == if a < 5 then a else 11 - a
    {
    }
  }

  /** The layout fails exactly when column 0 is blank, or when there is a column 5 and it is
      blank; a blank column 0 leaves no shape at all. */
  lemma DiagonalFailsIff(row: seq<string>)
    ensures DiagonalLayout(row).failure.Some? <==>
              (|row| > 0 && AllSpace(row[0])) || (|row| > 5 && AllSpace(row[5]))
    ensures |row| > 0 && AllSpace(row[0]) ==> DiagonalLayout(row) == Built([], Some(BlankLabel(0)))
  {
    if |row| > 0 {
      FirstWordAbsentIffBlank(row[0]);
    }
    if |row| > 5 {
      FirstWordAbsentIffBlank(row[5]);
    }
  }

  /** Column 3 never contributes: changing it changes nothing in the layout. */
  lemma ColumnThreeIgnored(row: seq<string>, other: string)
    requires |row| > 3
    ensures DiagonalLayout(row[3 := other]) == DiagonalLayout(row)
  {
    var row' := row[3 := other];
    assert row'[0] == row[0] && row'[1] == row[1] && row'[2] == row[2];
    assert |row| > 4 ==> row'[4] == row[4];
    assert |row| > 5 ==> row'[5] == row[5] && Last(row') == Last(row);
  }

  /** Where slot `s` lies on a canvas of width `w` and height `h`. */
  function SlotPoint(s: nat, w: real, h: real): (real, real) {
    (s as real * w / SlotCount as real, s as real * h / SlotCount as real)
  }

  /** On a canvas of positive size the slots form a strict staircase: a later slot lies
      strictly right of and strictly below an earlier one. */
  lemma SlotsFormStaircase(s: nat, t: nat, w: real, h: real)
    requires s < t && w > 0.0 && h > 0.0
    ensures SlotPoint(s, w, h).0 < SlotPoint(t, w, h).0
    ensures SlotPoint(s, w, h).1 < SlotPoint(t, w, h).1
  {
    assert (t as real - s as real) * w > 0.0;
    assert (t as real - s as real) * h > 0.0;
  }

  lemma StartIsOneWord()
    ensures FirstWord("Start") == Some("Start")
  {
    assert LeadingWord("t") == "t" by { assert "t"[1..] == ""; }
    assert LeadingWord("rt") == "rt" by { assert "rt"[1..] == "t"; }
    assert LeadingWord("art") == "art" by { assert "art"[1..] == "rt"; }
    assert LeadingWord("tart") == "tart" by { assert "tart"[1..] == "art"; }
    assert LeadingWord("Start") == "Start" by { assert "Start"[1..] == "tart"; }
  }

  lemma EndIsOneWord()
    ensures FirstWord("End") == Some("End")
  {
    assert LeadingWord("d") == "d" by { assert "d"[1..] == ""; }
    assert LeadingWord("nd") == "nd" by { assert "nd"[1..] == "d"; }
    assert LeadingWord("End") == "End" by { assert "End"[1..] == "nd"; }
  }

  lemma SignOffFirstWord()
    ensures FirstWord(" Sign off") == Some("Sign")
  {
    assert LeadingWord(" off") == "";
    assert LeadingWord("n off") == "n" by { assert "n off"[1..] == " off"; }
    assert LeadingWord("gn off") == "gn" by { assert "gn off"[1..] == "n off"; }
    assert LeadingWord("ign off") == "ign" by { assert "ign off"[1..] == "gn off"; }
    assert LeadingWord("Sign off") == "Sign" by { assert "Sign off"[1..] == "ign off"; }
    assert FirstWord(" Sign off") == FirstWord("Sign off") by { assert " Sign off"[1..] == "Sign off"; }
  }

  /** A six-cell row yields seven shapes: two each for columns 0 and 5, one each for
      columns 1, 2 and 4, none for column 3. */
  lemma SixCellExample()
    ensures DiagonalLayout(["Start", "ActorA", "ActionB", "(note)", "OutcomeC", "End"])
         == Built([SlotShape(RoundedRect, 0, White, "Start"), SlotShape(Oval, 1, Red, "Start"),
                   SlotShape(Oval, 2, Green, "ActorA"), SlotShape(Oval, 3, Red, "ActionB"),
                   SlotShape(Oval, 4, Green, "OutcomeC"),
                   SlotShape(RoundedRect, 6, White, "End"), SlotShape(Oval, 5, Red, "End")], None)
  {
    StartIsOneWord();
    EndIsOneWord();
  }

  /** Column 5's oval carries only the first word, and a seventh cell ends up as the text
      of column 5's rectangle. */
  lemma SevenCellExample()
    ensures DiagonalLayout(["Start", "Clerk", "Files", "-", "Record", " Sign off", "Note"]).shapes
         == [SlotShape(RoundedRect, 0, White, "Start"), SlotShape(Oval, 1, Red, "Start"),
             SlotShape(Oval, 2, Green, "Clerk"), SlotShape(Oval, 3, Red, "Files"),
             SlotShape(Oval, 4, Green, "Record"),
             SlotShape(RoundedRect, 6, White, "Note"), SlotShape(Oval, 5, Red, "Sign")]
  {
    var row := ["Start", "Clerk", "Files", "-", "Record", " Sign off", "Note"];
    StartIsOneWord();
    SignOffFirstWord();
    var opening := [SlotShape(RoundedRect, 0, White, "Start"), SlotShape(Oval, 1, Red, "Start")]
                   + [SlotShape(Oval, 2, Green, "Clerk")] + [SlotShape(Oval, 3, Red, "Files")]
                   + [SlotShape(Oval, 4, Green, "Record")];
    assert DiagonalLayout(row).shapes
           == opening + [SlotShape(RoundedRect, 6, White, "Note"), SlotShape(Oval, 5, Red, "Sign")];
    SevenInOrder(SlotShape(RoundedRect, 0, White, "Start"), SlotShape(Oval, 1, Red, "Start"),
                 SlotShape(Oval, 2, Green, "Clerk"), SlotShape(Oval, 3, Red, "Files"),
                 SlotShape(Oval, 4, Green, "Record"),
                 SlotShape(RoundedRect, 6, White, "Note"), SlotShape(Oval, 5, Red, "Sign"));
  }

  lemma SevenInOrder<T>(a: T, b: T, c: T, d: T, e: T, f: T, g: T)
    ensures [a, b] + [c] + [d] + [e] + [f, g] == [a, b, c, d, e, f, g]
  {
  }

  // How the layout of a prefix of the row grows by one more cell, column by column.

  lemma FirstColumnStep(row: seq<string>)
    requires 0 < |row|
    ensures DiagonalLayout(row[..1]) == match FirstWord(row[0])
              case None => Built([], Some(BlankLabel(0)))
              case Some(w) => Built([SlotShape(RoundedRect, 0, White, row[0]), SlotShape(Oval, 1, Red, w)], None)
  {
    assert row[..1][0] == row[0];
  }

  lemma OpeningColumnStep(row: seq<string>, i: nat)
    requires i < |row| && (i == 1 || i == 2 || i == 4) && DiagonalLayout(row[..i]).failure.None?
    ensures DiagonalLayout(row[..i + 1])
            == Built(DiagonalLayout(row[..i]).shapes
                     + [SlotShape(Oval, if i == 4 then 4 else i + 1, if i == 2 then Red else Green, row[i])], None)
  {
    assert row[..i + 1][0] == row[..i][0] == row[0];
    assert row[..i + 1][i] == row[i];
    assert 1 < i ==> row[..i + 1][1] == row[..i][1];
    assert 2 < i ==> row[..i + 1][2] == row[..i][2];
  }

  lemma ColumnThreeStep(row: seq<string>)
    requires 3 < |row|
    ensures DiagonalLayout(row[..4]) == DiagonalLayout(row[..3])
  {
    assert row[..4][0] == row[..3][0] && row[..4][1] == row[..3][1] && row[..4][2] == row[..3][2];
  }

  lemma ClosingColumnStep(row: seq<string>)
    requires 5 < |row| && DiagonalLayout(row[..5]).failure.None?
    ensures DiagonalLayout(row[..6]) == match FirstWord(row[5])
              case None => Built(DiagonalLayout(row[..5]).shapes, Some(BlankLabel(5)))
              case Some(w) => Built(DiagonalLayout(row[..5]).shapes
                                    + [SlotShape(RoundedRect, 6, White, row[5]), SlotShape(Oval, 5, Red, w)], None)
  {
    assert row[..6][0] == row[..5][0] == row[0];
    assert row[..6][1] == row[..5][1] == row[1] && row[..6][2] == row[..5][2] == row[2];
    assert row[..6][4] == row[..5][4] == row[4] && row[..6][5] == row[5];
  }

  lemma BlankClosingStops(row: seq<string>)
    requires 5 < |row| && FirstWord(row[5]).None? && DiagonalLayout(row[..5]).failure.None?
    ensures DiagonalLayout(row) == Built(DiagonalLayout(row[..5]).shapes, Some(BlankLabel(5)))
  {
    assert row[..5][0] == row[0] && row[..5][1] == row[1] && row[..5][2] == row[2] && row[..5][4] == row[4];
  }

  /** Relabelling a shape with the text it already carries changes nothing. */
  lemma RelabelUnchanged(shapes: seq<Shape>, k: nat, text: string)
    requires k < |shapes| && shapes[k].text == text
    ensures shapes[k := shapes[k].(text := text)] == shapes
  {
  }

  lemma RelabelColumnStep(row: seq<string>, i: nat)
    requires 5 < i < |row| && DiagonalLayout(row[..i]).failure.None?
    ensures DiagonalLayout(row[..i + 1]) == Built(DiagonalLayout(row[..i]).shapes[5 := SlotShape(RoundedRect, 6, White, row[i])], None)
  {
    var a, b := row[..i], row[..i + 1];
    assert b[0] == a[0] && b[1] == a[1] && b[2] == a[2] && b[4] == a[4] && b[5] == a[5];
    assert Last(b) == row[i];
  }

  /** The source's loop over the row. Each shape is added unlabelled and then labelled
      through the two variables `shape` and `oval`, which still point at earlier shapes when
      the current column adds none: a column after the sixth therefore relabels column 5's
      rectangle, and every column relabels the current red oval with the current first word. */
  method BuildDiagonal(row: seq<string>) returns (shapes: seq<Shape>, failure: Option<Failure>)
    ensures Built(shapes, failure) == DiagonalLayout(row)
  {
    shapes, failure := [], None;
    var shapeAt, ovalAt := 0, 0;
    var redText := "";
    var i := 0;
    while i < |row|
      invariant 0 <= i <= |row|
      invariant DiagonalLayout(row[..i]) == Built(shapes, None)
      invariant i > 0 ==> ovalAt < |shapes| && shapes[ovalAt].text == redText
      invariant i > 5 ==> |shapes| == 7 && shapeAt == 5 && ovalAt == 6
    {
      var cell := row[i];
      if i == 0 {
        FirstColumnStep(row);
      } else if i == 1 || i == 2 || i == 4 {
        OpeningColumnStep(row, i);
      } else if i == 3 {
        ColumnThreeStep(row);
        i := i + 1;
        continue;
      } else if i == 5 {
        ClosingColumnStep(row);
        if FirstWord(cell).None? {
          BlankClosingStops(row);
        }
      } else {
        RelabelColumnStep(row, i);
      }
      if i == 0 || i == 5 {
        var word := FirstWord(cell);
        if word.None? {
          failure := Some(BlankLabel(i));
          return;
        }
        redText := word.value;
        if i == 0 {
          shapes := shapes + [SlotShape(RoundedRect, i, White, "")];
          shapeAt := |shapes| - 1;
          shapes := shapes + [SlotShape(Oval, i + 1, Red, "")];
          ovalAt := |shapes| - 1;
        } else {
          shapes := shapes + [SlotShape(RoundedRect, i + 1, White, "")];
          shapeAt := |shapes| - 1;
          shapes := shapes + [SlotShape(Oval, i, Red, "")];
          ovalAt := |shapes| - 1;
        }
      } else if i == 1 {
        shapes := shapes + [SlotShape(Oval, i + 1, Green, "")];
        shapeAt := |shapes| - 1;
      } else if i == 2 {
        shapes := shapes + [SlotShape(Oval, i + 1, Red, "")];
        shapeAt := |shapes| - 1;
      } else if i == 4 {
        shapes := shapes + [SlotShape(Oval, i, Green, "")];
        shapeAt := |shapes| - 1;
      }
      shapes := shapes[shapeAt := shapes[shapeAt].(text := cell)];
      if i != 0 && i != 5 {
        RelabelUnchanged(shapes, ovalAt, redText);
      }
      shapes := shapes[ovalAt := shapes[ovalAt].(text := redText)];
      i := i + 1;
    }
    assert row[..|row|] == row;
  }
}
