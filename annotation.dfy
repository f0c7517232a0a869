/** The verb strip shared by all policies: verbs are gathered from the cells through an
    external part-of-speech tagger, cut into groups of five and laid out as text boxes
    starting near the bottom-left of the slide. */
module Annotation {
  import opened Wrappers
  import opened Seqs
  import opened Descriptors

  /** A token as the tagger returns it: its surface text and its coarse part of speech. */
  datatype Token = Token(text: string, pos: string)

  /** The tagger: the tokens of a text in order, or None where it raises. */
  type Tagger = string -> Option<seq<Token>>

  predicate IsVerb(t: Token) {
    t.pos == "VERB"
  }

  /** The surface forms of the verb tokens, in order and with repetitions. */
  function VerbsOf(tokens: seq<Token>): (r: seq<string>)
    ensures |r| <= |tokens|
  {
    if tokens == [] then []
    else VerbsOf(tokens[..|tokens| - 1])
         + (if IsVerb(tokens[|tokens| - 1]) then [tokens[|tokens| - 1].text] else [])
  }

  /** Exactly the texts of the verb tokens appear among the collected verbs. */
  lemma {:induction false} VerbsOfExactly(tokens: seq<Token>, v: string)
    ensures v in VerbsOf(tokens) <==> exists t :: t in tokens && IsVerb(t) && t.text == v
  {
    if tokens != [] {
      var init, t := tokens[..|tokens| - 1], tokens[|tokens| - 1];
      VerbsOfExactly(init, v);
      assert tokens == init + [t];
      if v in VerbsOf(init) {
        var u :| u in init && IsVerb(u) && u.text == v;
        assert u in tokens;
      }
      if exists u :: u in tokens && IsVerb(u) && u.text == v {
        var u :| u in tokens && IsVerb(u) && u.text == v;
        assert u in init || u == t;
      }
    }
  }

  /** Each verb token contributes one entry: the count is the number of verb tokens. */
  lemma {:induction false} VerbsOfCount(tokens: seq<Token>)
    ensures |VerbsOf(tokens)| == |set k | 0 <= k < |tokens| && IsVerb(tokens[k])|
  {
    if tokens != [] {
      var n := |tokens| - 1;
      var init := tokens[..n];
      VerbsOfCount(init);
      var before := set k | 0 <= k < n && IsVerb(init[k]);
      var now := set k | 0 <= k < |tokens| && IsVerb(tokens[k]);
      assert now == before + (if IsVerb(tokens[n]) then {n} else {});
    }
  }

  /** The verbs of a sequence of cells, tagged one after the other; None as soon as the
      tagger raises on one of them. */
  function CellsVerbs(tagger: Tagger, cells: seq<string>): (r: Option<seq<string>>)
    ensures r.Some? && cells != [] ==> tagger(cells[|cells| - 1]).Some?
  {
    if cells == [] then Some([])
    else match CellsVerbs(tagger, cells[..|cells| - 1])
      case None => None
      case Some(verbs) =>
        match tagger(cells[|cells| - 1])
        case None => None
        case Some(tokens) => Some(verbs + VerbsOf(tokens))
  }

  lemma CellsVerbsSnoc(tagger: Tagger, cells: seq<string>, i: nat)
    requires i < |cells|
    ensures CellsVerbs(tagger, cells[..i + 1]) ==
              match CellsVerbs(tagger, cells[..i])
              case None => None
              case Some(verbs) =>
                match tagger(cells[i])
                case None => None
                case Some(tokens) => Some(verbs + VerbsOf(tokens))
  {
    assert cells[..i + 1][..i] == cells[..i];
  }

  /** Collecting fails exactly when the tagger raises on one of the cells. */
  lemma {:induction false} CellsVerbsFailsIff(tagger: Tagger, cells: seq<string>)
    ensures CellsVerbs(tagger, cells).None? <==> exists k :: 0 <= k < |cells| && tagger(cells[k]).None?
  {
    if cells != [] {
      var n := |cells| - 1;
      CellsVerbsFailsIff(tagger, cells[..n]);
      if exists k :: 0 <= k < n && tagger(cells[..n][k]).None? {
        var k :| 0 <= k < n && tagger(cells[..n][k]).None?;
        assert cells[k] == cells[..n][k];
      }
      if exists k :: 0 <= k < |cells| && tagger(cells[k]).None? {
        var k :| 0 <= k < |cells| && tagger(cells[k]).None?;
        if k < n {
          assert cells[..n][k] == cells[k];
        }
      }
    }
  }

  /** The cells of the CoreProcess row whose verbs are collected: all but column 3. */
  function WithoutColumnThree(row: seq<string>): (r: seq<string>)
    ensures |row| <= 3 ==> r == row
    ensures |row| > 3 ==> |r| == |row| - 1 && r[..3] == row[..3] && r[3..] == row[4..]
  {
    if |row| <= 3 then row else row[..3] + row[4..]
  }

  lemma WithoutColumnThreeSnoc(row: seq<string>, i: nat)
    requires i < |row|
    ensures WithoutColumnThree(row[..i + 1]) ==
              if i == 3 then WithoutColumnThree(row[..i]) else WithoutColumnThree(row[..i]) + [row[i]]
  {
    var pre, pre' := row[..i], row[..i + 1];
    if i > 3 {
      assert pre'[..3] == pre[..3];
      assert pre'[4..] == pre[4..] + [row[i]];
    } else if i == 3 {
      assert pre'[..3] == pre;
      assert pre'[4..] == [];
    }
  }

  /** The verbs collected over the cells of a prefix of the row other than column 3, one
      cell further. */
  lemma RowVerbsStep(tagger: Tagger, row: seq<string>, i: nat)
    requires i < |row| && i != 3
    ensures CellsVerbs(tagger, WithoutColumnThree(row[..i + 1])) ==
              match CellsVerbs(tagger, WithoutColumnThree(row[..i]))
              case None => None
              case Some(verbs) =>
                match tagger(row[i])
                case None => None
                case Some(tokens) => Some(verbs + VerbsOf(tokens))
  {
    WithoutColumnThreeSnoc(row, i);
    var cells := WithoutColumnThree(row[..i]) + [row[i]];
    CellsVerbsSnoc(tagger, cells, |cells| - 1);
    assert cells[..|cells| - 1] == WithoutColumnThree(row[..i]);
    assert cells[..|cells|] == cells;
  }

  lemma {:induction false} WithoutColumnThreePrefix(row: seq<string>, n: nat)
    requires n <= |row|
    ensures WithoutColumnThree(row[..n]) <= WithoutColumnThree(row)
    decreases |row| - n
  {
    if n < |row| {
      WithoutColumnThreePrefix(row, n + 1);
      WithoutColumnThreeSnoc(row, n);
    } else {
      assert row[..n] == row;
    }
  }

  /** The CoreProcess verb loop: tag every cell of the row except column 3. */
  method CollectRowVerbs(tagger: Tagger, row: seq<string>) returns (verbs: Option<seq<string>>)
    ensures verbs == CellsVerbs(tagger, WithoutColumnThree(row))
  {
    var collected: seq<string> := [];
    var i := 0;
    while i < |row|
      invariant 0 <= i <= |row|
      invariant CellsVerbs(tagger, WithoutColumnThree(row[..i])) == Some(collected)
    {
      if i == 3 {
        WithoutColumnThreeSnoc(row, i);
        i := i + 1;
        continue;
      }
      RowVerbsStep(tagger, row, i);
      var tokens := tagger(row[i]);
      if tokens.None? {
        WithoutColumnThreePrefix(row, i + 1);
        CellsVerbsNoneExtends(tagger, WithoutColumnThree(row[..i + 1]), WithoutColumnThree(row));
        return None;
      }
      collected := collected + VerbsOf(tokens.value);
      i := i + 1;
    }
    assert row[..|row|] == row;
    verbs := Some(collected);
  }

  /** Once the tagger has raised on a prefix, collecting over any extension fails too. */
  lemma CellsVerbsNoneExtends(tagger: Tagger, prefix: seq<string>, cells: seq<string>)
    requires prefix <= cells && CellsVerbs(tagger, prefix).None?
    ensures CellsVerbs(tagger, cells).None?
  {
    CellsVerbsFailsIff(tagger, prefix);
    CellsVerbsFailsIff(tagger, cells);
    var k :| 0 <= k < |prefix| && tagger(prefix[k]).None?;
    assert cells[k] == prefix[k];
  }

  lemma FlattenPrefixSnoc(rows: seq<seq<string>>, j: nat)
    requires j < |rows|
    ensures Flatten(rows[..j + 1]) == Flatten(rows[..j]) + rows[j]
  {
    assert rows[..j + 1] == rows[..j] + [rows[j]];
    FlattenSnoc(rows[..j], rows[j]);
  }

  /** The verbs collected over the cells before a row and a prefix of it, one cell further;
      that longer run of cells is still a prefix of the cells before the row and the row. */
  lemma TableVerbsStep(tagger: Tagger, before: seq<string>, row: seq<string>, i: nat)
    requires i < |row|
    ensures CellsVerbs(tagger, before + row[..i + 1]) ==
              match CellsVerbs(tagger, before + row[..i])
              case None => None
              case Some(verbs) =>
                match tagger(row[i])
                case None => None
                case Some(tokens) => Some(verbs + VerbsOf(tokens))
    ensures before + row[..i + 1] <= before + row
  {
    var cells := before + row[..i + 1];
    assert cells[..|cells| - 1] == before + row[..i];
    CellsVerbsSnoc(tagger, cells, |cells| - 1);
    assert cells[..|cells|] == cells;
  }

  /** The cell loop of one row: tag each cell in turn, continuing the verbs collected from
      the cells before it. */
  method CollectCellVerbs(tagger: Tagger, ghost before: seq<string>, collected: seq<string>, row: seq<string>)
    returns (verbs: Option<seq<string>>)
    requires CellsVerbs(tagger, before) == Some(collected)
    ensures verbs == CellsVerbs(tagger, before + row)
  {
    var acc := collected;
    var i := 0;
    assert before + row[..0] == before;
    while i < |row|
      invariant 0 <= i <= |row|
      invariant CellsVerbs(tagger, before + row[..i]) == Some(acc)
    {
      TableVerbsStep(tagger, before, row, i);
      var tokens := tagger(row[i]);
      if tokens.None? {
        CellsVerbsNoneExtends(tagger, before + row[..i + 1], before + row);
        return None;
      }
      acc := acc + VerbsOf(tokens.value);
      i := i + 1;
    }
    assert row[..|row|] == row;
    verbs := Some(acc);
  }

  /** The grid policies' verb loop: tag every cell of every row, with no column or
      parenthesis exclusion. */
  method CollectTableVerbs(tagger: Tagger, rows: seq<seq<string>>) returns (verbs: Option<seq<string>>)
    ensures verbs == CellsVerbs(tagger, Flatten(rows))
  {
    var collected: seq<string> := [];
    var j := 0;
    while j < |rows|
      invariant 0 <= j <= |rows|
      invariant CellsVerbs(tagger, Flatten(rows[..j])) == Some(collected)
    {
      var rowVerbs := CollectCellVerbs(tagger, Flatten(rows[..j]), collected, rows[j]);
      FlattenPrefixSnoc(rows, j);
      if rowVerbs.None? {
        FlattenPrefixOf(rows, j + 1);
        CellsVerbsNoneExtends(tagger, Flatten(rows[..j + 1]), Flatten(rows));
        return None;
      }
      collected := rowVerbs.value;
      j := j + 1;
    }
    assert rows[..|rows|] == rows;
    verbs := Some(collected);
  }

  lemma {:induction false} FlattenPrefixOf(rows: seq<seq<string>>, j: nat)
    requires j <= |rows|
    ensures Flatten(rows[..j]) <= Flatten(rows)
    decreases |rows| - j
  {
    if j < |rows| {
      FlattenPrefixOf(rows, j + 1);
      FlattenPrefixSnoc(rows, j);
    } else {
      assert rows[..j] == rows;
    }
  }

  /** `[verbs[i:i+5] for i in range(0, len(verbs), 5)]`: consecutive groups of five, the
      last one possibly shorter. */
  function Chunks<T>(s: seq<T>): (r: seq<seq<T>>)
    ensures |r| == 0 <==> |s| == 0
    ensures forall c :: 0 <= c < |r| ==> 0 < |r[c]| <= ChunkSize
  {
    seq((|s| + ChunkSize - 1) / ChunkSize,
        c requires 0 <= c < (|s| + ChunkSize - 1) / ChunkSize =>
          s[ChunkSize * c .. Min(ChunkSize * c + ChunkSize, |s|)])
  }

  /** There are ceil(n / 5) groups: enough to hold every element, and one fewer would not be. */
  lemma ChunkCount<T>(s: seq<T>)
    ensures |s| <= ChunkSize * |Chunks(s)|
    ensures |Chunks(s)| > 0 ==> ChunkSize * (|Chunks(s)| - 1) < |s|
  {
  }

  /** No group is empty, every group but the last has exactly five elements, and the last
      has n mod 5 of them, or five when n is a multiple of five. */
  lemma ChunkSizes<T>(s: seq<T>)
    ensures forall c :: 0 <= c < |Chunks(s)| ==> 0 < |Chunks(s)[c]| <= ChunkSize
    ensures forall c :: 0 <= c < |Chunks(s)| - 1 ==> |Chunks(s)[c]| == ChunkSize
    ensures |Chunks(s)| > 0 ==>
              |Chunks(s)[|Chunks(s)| - 1]| == if |s| % ChunkSize == 0 then ChunkSize else |s| % ChunkSize
  {
  }

  /** Element w of group c is element 5c + w of the input. */
  lemma ChunkElement<T>(s: seq<T>, c: nat, w: nat)
    requires c < |Chunks(s)| && w < |Chunks(s)[c]|
    ensures ChunkSize * c + w < |s| && Chunks(s)[c][w] == s[ChunkSize * c + w]
  {
  }

  lemma {:induction false} ChunksPrefixFlatten<T>(s: seq<T>, m: nat)
    requires m <= |Chunks(s)|
    ensures Flatten(Chunks(s)[..m]) == s[..Min(ChunkSize * m, |s|)]
  {
    if m > 0 {
      var chunks := Chunks(s);
      ChunksPrefixFlatten(s, m - 1);
      assert chunks[..m] == chunks[..m - 1] + [chunks[m - 1]];
      FlattenSnoc(chunks[..m - 1], chunks[m - 1]);
      assert s[..Min(ChunkSize * m, |s|)]
          == s[..ChunkSize * (m - 1)] + s[ChunkSize * (m - 1)..Min(ChunkSize * m, |s|)];
    }
  }

  /** The groups concatenate back to the input: nothing is lost, repeated or reordered. */
  lemma ChunksFlatten<T>(s: seq<T>)
    ensures Flatten(Chunks(s)) == s
  {
    ChunksPrefixFlatten(s, |Chunks(s)|);
    ChunkCount(s);
    assert Chunks(s)[..|Chunks(s)|] == Chunks(s);
  }

  /** Where the k-th verb overall is boxed: column k mod 5 of the strip, and one box height
      higher than the verb before it. */
  function StripBox(k: nat, verb: string, slideHeight: int): (b: TextBox)
    ensures b.text == verb && b.width == BoxWidth && b.height == BoxHeight
    ensures StripLeftMargin <= b.left && b.left + b.width <= StripLeftMargin + ChunkSize * BoxWidth
    ensures b.top + b.height == slideHeight - k * BoxHeight
  {
    TextBox(StripLeftMargin + (k % ChunkSize) * BoxWidth, slideHeight - StripBottomMargin - k * BoxHeight,
            BoxWidth, BoxHeight, verb)
  }

  /** The strip loop: for each group, restart at the left margin; for each verb, add its
      box, move one box right and one box height up. */
  method PlaceStrip(verbs: seq<string>, slideHeight: int) returns (boxes: seq<TextBox>)
    ensures |boxes| == |verbs|
    ensures forall k :: 0 <= k < |verbs| ==> boxes[k] == StripBox(k, verbs[k], slideHeight)
  {
    var chunks := Chunks(verbs);
    ChunkCount(verbs);
    ChunkSizes(verbs);
    var top := slideHeight - StripBottomMargin;
    boxes := [];
    var c := 0;
    while c < |chunks|
      invariant 0 <= c <= |chunks|
      invariant |boxes| == Min(ChunkSize * c, |verbs|)
      invariant top == slideHeight - StripBottomMargin - |boxes| * BoxHeight
      invariant forall k :: 0 <= k < |boxes| ==> boxes[k] == StripBox(k, verbs[k], slideHeight)
    {
      var chunk := chunks[c];
      var left := StripLeftMargin;
      var w := 0;
      while w < |chunk|
        invariant 0 <= w <= |chunk|
        invariant |boxes| == ChunkSize * c + w
        invariant left == StripLeftMargin + w * BoxWidth
        invariant top == slideHeight - StripBottomMargin - |boxes| * BoxHeight
        invariant forall k :: 0 <= k < |boxes| ==> boxes[k] == StripBox(k, verbs[k], slideHeight)
      {
        ChunkElement(verbs, c, w);
        assert (ChunkSize * c + w) % ChunkSize == w;
        boxes := boxes + [TextBox(left, top, BoxWidth, BoxHeight, chunk[w])];
        left := left + BoxWidth;
        top := top - BoxHeight;
        w := w + 1;
      }
      c := c + 1;
    }
  }

  /** The strip is a staircase: each verb's box is exactly one box height above the
      previous one, one box to the right within a group and back at the left margin at the
      start of the next group. */
  lemma StripStaircase(k: nat, a: string, b: string, slideHeight: int)
    ensures StripBox(k + 1, b, slideHeight).top == StripBox(k, a, slideHeight).top - BoxHeight
    ensures (k + 1) % ChunkSize != 0 ==>
              StripBox(k + 1, b, slideHeight).left == StripBox(k, a, slideHeight).left + BoxWidth
    ensures (k + 1) % ChunkSize == 0 ==> StripBox(k + 1, b, slideHeight).left == StripLeftMargin
  {
  }
}
