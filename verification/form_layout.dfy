/**
 * The scene form's vertical layout as a sequence of widgets, and the
 * cleanup pass that removes the checklist (`Form.cleanup`).
 */
module FormLayout {
  import opened StringOrder
  import opened Checklist

  /** The kinds of widget the form's layout holds (the stretch is a spacer item). */
  datatype Widget =
    | Label(text: string)
    | Combo
    | Edit
    | Button(text: string)
    | Stretch
    | CheckBox(text: string)

  /** The text of the label added after a successful submission, spelt as the form shows it. */
  const SUCCESS_TEXT: string := "Tags added succesfully!"

  /** The layout index at which every new checkbox is inserted. */
  const CHECKBOX_INDEX: nat := 5

  /** The widgets above the checklist: template selector, scene id field and "Get Scene". */
  function Head(): (r: seq<Widget>)
    ensures |r| == CHECKBOX_INDEX
  {
    [Label("Select Template:"), Combo, Label("Scene ID:"), Edit, Button("Get Scene")]
  }

  /** The widgets below the checklist: "Set tags" and the stretch. */
  function Tail(): seq<Widget>
  {
    [Button("Set tags"), Stretch]
  }

  /** `k` success labels, as left at the bottom by `k` successful submissions. */
  function Successes(k: nat): seq<Widget>
  {
    seq(k, _ => Label(SUCCESS_TEXT))
  }

  /**
   * The checkbox widgets for `boxes` as the layout shows them: each box
   * was inserted at the same index, so the last one created is on top.
   */
  function BoxRow(boxes: seq<TagBox>): seq<Widget>
  {
    if boxes == [] then []
    else [CheckBox(boxes[|boxes| - 1].name)] + BoxRow(boxes[..|boxes| - 1])
  }

  /** The whole layout of a form holding `boxes` and `k` success labels. */
  function Layout(boxes: seq<TagBox>, k: nat): seq<Widget>
  {
    Head() + BoxRow(boxes) + Tail() + Successes(k)
  }

  /**
   * Inserting a new box's widget at the checkbox index of the layout gives
   * the layout of the checklist with that box appended.
   */
  lemma InsertBoxWidget(boxes: seq<TagBox>, x: TagBox, k: nat)
    ensures var ws := Layout(boxes, k);
            Layout(boxes + [x], k) == ws[..CHECKBOX_INDEX] + [CheckBox(x.name)] + ws[CHECKBOX_INDEX..]
  {
  }

  /** The layout with every checkbox removed. */
  function DropCheckBoxes(ws: seq<Widget>): seq<Widget>
  {
    if ws == [] then []
    else (if ws[0].CheckBox? then [] else [ws[0]]) + DropCheckBoxes(ws[1..])
  }

  /**
   * What `cleanup` leaves: the last widget removed if it is a label, then
   * every checkbox removed. An empty layout has no last item to inspect.
   */
  function Cleaned(ws: seq<Widget>): seq<Widget>
    requires |ws| > 0
  {
    DropCheckBoxes(if ws[|ws| - 1].Label? then ws[..|ws| - 1] else ws)
  }

  /** Removing checkboxes keeps exactly the other widgets. */
  lemma {:induction false} DropCheckBoxesKeeps(ws: seq<Widget>)
    ensures forall w :: w in DropCheckBoxes(ws) <==> w in ws && !w.CheckBox?
  {
    if ws != [] {
      DropCheckBoxesKeeps(ws[1..]);
      assert forall w :: w in ws <==> w == ws[0] || w in ws[1..];
    }
  }

  /**
   * One step of the bottom-up removal loop at index `i`: when everything
   * below `i` is already cleaned, the widget at `i` is still the original
   * one, and deleting it exactly when it is a checkbox leaves everything
   * from `i` on cleaned.
   */
  lemma DropCheckBoxesStep(kept: seq<Widget>, i: nat)
    requires i < |kept|
    ensures var ws := kept[..i + 1] + DropCheckBoxes(kept[i + 1..]);
            && ws[i] == kept[i]
            && kept[..i] + DropCheckBoxes(kept[i..]) == if kept[i].CheckBox? then ws[..i] + ws[i + 1..] else ws
  {
  }

  /** Removing checkboxes works piecewise, so the kept widgets stay in their order. */
  lemma {:induction false} DropCheckBoxesAppend(a: seq<Widget>, b: seq<Widget>)
    ensures DropCheckBoxes(a + b) == DropCheckBoxes(a) + DropCheckBoxes(b)
  {
    if a == [] {
      assert a + b == b;
    } else {
      assert (a + b)[0] == a[0] && (a + b)[1..] == a[1..] + b;
      DropCheckBoxesAppend(a[1..], b);
    }
  }

  lemma {:induction false} BoxRowOnlyCheckBoxes(boxes: seq<TagBox>)
    ensures DropCheckBoxes(BoxRow(boxes)) == []
  {
    if boxes != [] {
      var top := CheckBox(boxes[|boxes| - 1].name);
      DropCheckBoxesAppend([top], BoxRow(boxes[..|boxes| - 1]));
      BoxRowOnlyCheckBoxes(boxes[..|boxes| - 1]);
    }
  }

  lemma {:induction false} SuccessesHaveNoCheckBoxes(k: nat)
    ensures DropCheckBoxes(Successes(k)) == Successes(k)
  {
    if k > 0 {
      assert Successes(k) == [Label(SUCCESS_TEXT)] + Successes(k - 1);
      DropCheckBoxesAppend([Label(SUCCESS_TEXT)], Successes(k - 1));
      SuccessesHaveNoCheckBoxes(k - 1);
    }
  }

  /** The bottom widget of a form layout is a label exactly when it holds a success label. */
  lemma BottomLabelDropped(boxes: seq<TagBox>, k: nat)
    ensures var ws := Layout(boxes, k);
            && |ws| > 0
            && ws[|ws| - 1].Label? == (k > 0)
            && (if ws[|ws| - 1].Label? then ws[..|ws| - 1] else ws) == Layout(boxes, if k > 0 then k - 1 else 0)
  {
  }

  /** The checkbox pass keeps a form layout's fixed widgets and success labels. */
  lemma DropCheckBoxesOfLayout(boxes: seq<TagBox>, k: nat)
    ensures DropCheckBoxes(Layout(boxes, k)) == Layout([], k)
  {
    DropCheckBoxesAppend(Head() + BoxRow(boxes) + Tail(), Successes(k));
    DropCheckBoxesAppend(Head() + BoxRow(boxes), Tail());
    DropCheckBoxesAppend(Head(), BoxRow(boxes));
    BoxRowOnlyCheckBoxes(boxes);
    SuccessesHaveNoCheckBoxes(k);
    assert DropCheckBoxes(Head()) == Head();
    assert DropCheckBoxes(Tail()) == Tail();
    assert Head() + [] == Head();
  }

  /**
   * Cleaning up a form layout removes every checkbox and exactly one
   * success label, the bottom one, if there is any: a second label left by
   * an earlier submission stays.
   */
  lemma CleanupOfLayout(boxes: seq<TagBox>, k: nat)
    ensures Cleaned(Layout(boxes, k)) == Layout([], if k > 0 then k - 1 else 0)
  {
    BottomLabelDropped(boxes, k);
    DropCheckBoxesOfLayout(boxes, if k > 0 then k - 1 else 0);
  }

  /** The layout shows the last box created first. */
  lemma {:induction false} BoxRowAt(boxes: seq<TagBox>, i: nat)
    requires i < |boxes|
    ensures |BoxRow(boxes)| == |boxes|
    ensures BoxRow(boxes)[i] == CheckBox(boxes[|boxes| - 1 - i].name)
  {
    var init := boxes[..|boxes| - 1];
    if i > 0 {
      BoxRowAt(init, i - 1);
    } else if init != [] {
      BoxRowAt(init, 0);
    }
  }

  /**
   * A form layout holds exactly one generation of checkboxes: the widgets
   * at the checkbox index and below it, one per box, and nothing else is
   * a checkbox.
   */
  lemma OneGeneration(boxes: seq<TagBox>, k: nat)
    ensures var ws := Layout(boxes, k);
            forall i :: 0 <= i < |ws| ==> (ws[i].CheckBox? <==> CHECKBOX_INDEX <= i < CHECKBOX_INDEX + |boxes|)
  {
    var ws := Layout(boxes, k);
    var n := |boxes|;
    if n > 0 {
      BoxRowAt(boxes, 0);
    }
    assert |BoxRow(boxes)| == n;
    assert ws == Head() + BoxRow(boxes) + (Tail() + Successes(k));
    forall i | 0 <= i < |ws|
      ensures ws[i].CheckBox? <==> CHECKBOX_INDEX <= i < CHECKBOX_INDEX + n
    {
      if CHECKBOX_INDEX <= i < CHECKBOX_INDEX + n {
        BoxRowAt(boxes, i - CHECKBOX_INDEX);
      } else if i >= CHECKBOX_INDEX + n + 2 {
        assert ws[i] == Successes(k)[i - CHECKBOX_INDEX - n - 2];
      }
    }
  }

  /**
   * With the boxes in descending name order, the layout shows them in
   * ascending name order, right after "Get Scene" and right before
   * "Set tags".
   */
  lemma ShownAscending(boxes: seq<TagBox>, k: nat)
    requires SortedDesc(boxes)
    ensures var ws := Layout(boxes, k);
            && |ws| == CHECKBOX_INDEX + |boxes| + 2 + k
            && ws[CHECKBOX_INDEX - 1] == Button("Get Scene")
            && ws[CHECKBOX_INDEX + |boxes|] == Button("Set tags")
            && (forall i :: CHECKBOX_INDEX <= i < CHECKBOX_INDEX + |boxes| ==> ws[i].CheckBox?)
            && (forall i, j :: CHECKBOX_INDEX <= i < j < CHECKBOX_INDEX + |boxes| ==> !Less(ws[j].text, ws[i].text))
  {
    var ws := Layout(boxes, k);
    var n := |boxes|;
    var row := BoxRow(boxes);
    if n > 0 {
      BoxRowAt(boxes, 0);
    }
    assert |row| == n;
    assert ws == Head() + row + (Tail() + Successes(k));
    forall i | CHECKBOX_INDEX <= i < CHECKBOX_INDEX + n
      ensures ws[i] == CheckBox(boxes[n - 1 - (i - CHECKBOX_INDEX)].name)
    {
      assert ws[i] == row[i - CHECKBOX_INDEX];
      BoxRowAt(boxes, i - CHECKBOX_INDEX);
    }
    assert ws[CHECKBOX_INDEX + n] == (Tail() + Successes(k))[0];
  }
}
