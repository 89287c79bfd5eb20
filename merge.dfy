/**
 * The merge page: a list of uploaded QR images (`mergeCodes`) that can be
 * appended to, filtered by id and relabelled in place; the controls that are
 * enabled only from two images on; and the two-column grid image
 * `generateGridMerged` draws from the list.
 */
module Merge {
  import opened Wrappers
  import opened Strings
  import opened Canvas2D
  import I18n

  /** One uploaded image, `{ id, data, label }`; only the label is ever changed. */
  class MergeCode {
    const id: int
    /** The image as a data URL. */
    const data: string
    /** The source's `label` (a keyword in Dafny). */
    var caption: string

    constructor (id: int, data: string)
      ensures this.id == id && this.data == data && caption == ""
    {
      this.id := id;
      this.data := data;
      caption := "";
    }
  }

  /** A value copy of one list entry. */
  datatype Entry = Entry(id: int, data: string, caption: string)

  /** `mergeCodes.find((c) => c.id === id)`, as the position of the first entry with that id. */
  function FindIndex(codes: seq<MergeCode>, id: int): (r: Option<nat>)
    ensures r.None? <==> forall k :: 0 <= k < |codes| ==> codes[k].id != id
    ensures r.Some? ==>
      r.value < |codes| && codes[r.value].id == id && forall k :: 0 <= k < r.value ==> codes[k].id != id
  {
    if codes == [] then None
    else if codes[0].id == id then Some(0)
    else
      match FindIndex(codes[1..], id)
      case None => None
      case Some(k) => Some(k + 1)
  }

  /** `mergeCodes.filter((code) => code.id !== id)`. */
  function Without(codes: seq<MergeCode>, id: int): seq<MergeCode> {
    if codes == [] then []
    else (if codes[0].id == id then [] else [codes[0]]) + Without(codes[1..], id)
  }

  /** The filter keeps exactly the entries with another id. */
  lemma {:induction false} WithoutMembers(codes: seq<MergeCode>, id: int)
    ensures forall c :: c in Without(codes, id) <==> c in codes && c.id != id
  {
    if codes != [] {
      WithoutMembers(codes[1..], id);
      assert codes == [codes[0]] + codes[1..];
    }
  }

  /** The filter works entry by entry, so it keeps the original order. */
  lemma {:induction false} WithoutAppend(a: seq<MergeCode>, b: seq<MergeCode>, id: int)
    ensures Without(a + b, id) == Without(a, id) + Without(b, id)
  {
    if a != [] {
      assert (a + b)[1..] == a[1..] + b;
      WithoutAppend(a[1..], b, id);
    } else {
      assert a + b == b;
    }
  }

  /** Removing an id no entry has changes nothing. */
  lemma {:induction false} WithoutAbsent(codes: seq<MergeCode>, id: int)
    requires forall k :: 0 <= k < |codes| ==> codes[k].id != id
    ensures Without(codes, id) == codes
  {
    if codes != [] {
      WithoutAbsent(codes[1..], id);
      assert [codes[0]] + codes[1..] == codes;
    }
  }

  /** No object is listed twice. */
  predicate Distinct(codes: seq<MergeCode>) {
    forall i, j :: 0 <= i < j < |codes| ==> codes[i] != codes[j]
  }

  lemma {:induction false} WithoutDistinct(codes: seq<MergeCode>, id: int)
    requires Distinct(codes)
    ensures Distinct(Without(codes, id))
  {
    if codes != [] {
      WithoutDistinct(codes[1..], id);
      WithoutMembers(codes[1..], id);
      var rest := Without(codes[1..], id);
      assert codes[0] !in codes[1..];
      assert codes[0] !in rest;
    }
  }

  /** The two-column grid: a 200-pixel image in each 220-pixel cell, 10 pixels in from its corner. */
  const QrSize: nat := 200
  const Padding: nat := 20
  const Pitch: nat := QrSize + Padding
  /** `mergeCodes.length === 2 ? 2 : 2`: both arms are 2. */
  const Cols: nat := 2
  const Background: string := "#ffffff"
  const LabelColor: string := "#000000"

  /** `Math.ceil(n / cols)`. */
  function GridRows(n: nat): nat {
    (n + Cols - 1) / Cols
  }

  function CellX(i: nat): nat {
    (i % Cols) * Pitch + Padding / 2
  }

  function CellY(i: nat): nat {
    (i / Cols) * Pitch + Padding / 2
  }

  /** `code.label || \`QR ${i + 1}\``. */
  function LabelOf(e: Entry, i: nat): string {
    if e.caption != "" then e.caption else "QR " + NatToString(i + 1)
  }

  /** What item `i` draws: its image in the cell, then its label centred under it. */
  function ItemOps(e: Entry, i: nat): seq<Op> {
    [DrawImage(e.data, CellX(i), CellY(i), QrSize, QrSize),
     FillText(LabelColor, LabelOf(e, i), CellX(i) + QrSize / 2, CellY(i) + QrSize + 15)]
  }

  /** What the loop has drawn after items `0 .. n-1`. */
  function ItemsOps(es: seq<Entry>, n: nat): (r: seq<Op>)
    requires n <= |es|
    ensures |r| == 2 * n
  {
    if n == 0 then [] else ItemsOps(es, n - 1) + ItemOps(es[n - 1], n - 1)
  }

  /** The grid image: the white background over the whole canvas, then every item in list order. */
  function GridOps(es: seq<Entry>): seq<Op> {
    [FillRect(Background, 0, 0, Cols * Pitch, GridRows(|es|) * Pitch)] + ItemsOps(es, |es|)
  }

  /** One turn of the drawing loop adds the item's image and label. */
  lemma ItemsOpsStep(es: seq<Entry>, i: nat, head: seq<Op>, ops: seq<Op>)
    requires i < |es|
    requires ops == head + ItemsOps(es, i)
    ensures ops + ItemOps(es[i], i) == head + ItemsOps(es, i + 1)
  {
    AppendAssoc(head, ItemsOps(es, i), ItemOps(es[i], i));
  }

  /** Item `i` occupies operations `2i` (image) and `2i + 1` (label). */
  lemma {:induction false} ItemsOpsAt(es: seq<Entry>, n: nat)
    requires n <= |es|
    ensures forall i :: 0 <= i < n ==>
      ItemsOps(es, n)[2 * i] == ItemOps(es[i], i)[0] && ItemsOps(es, n)[2 * i + 1] == ItemOps(es[i], i)[1]
  {
    if n > 0 {
      var m: nat := n - 1;
      ItemsOpsAt(es, m);
    }
  }

  /** The English text of the callout, used when `window.i18n` is missing. */
  const NeedTwoCodesText: string := "Please upload at least 2 QR code images."

  /** The callout text: the page asks the language state for the English entry, whatever language is current. */
  function NeedTwoCodesMessage(i18nLoaded: bool): string {
    if i18nLoaded then I18n.GetTranslation("merge.errorNoCodes", "en") else NeedTwoCodesText
  }

  /** The callout reads the same English sentence whether or not the language state is loaded. */
  lemma NeedTwoCodesAlwaysEnglish(i18nLoaded: bool)
    ensures NeedTwoCodesMessage(i18nLoaded) == NeedTwoCodesText
  {
    assert I18n.Translations["en"]["merge.errorNoCodes"] == NeedTwoCodesText;
  }

  /** What the generate button leads to. */
  datatype Outcome =
    | NeedTwoCodes(message: string)  // the error callout asks for at least two images
    | GridImage(canvas: Canvas)
    | SelectionPage  // the selection-page mode, not part of this model

  /** The page state: the list and whether the generate/download controls are enabled. */
  class MergeList {
    var codes: seq<MergeCode>
    var controlsEnabled: bool

    predicate Valid()
      reads this
    {
      Distinct(codes) && controlsEnabled == (|codes| >= 2)
    }

    /** The list as values. */
    function Snapshot(): (r: seq<Entry>)
      reads this, codes
      ensures |r| == |codes|
      ensures forall k :: 0 <= k < |codes| ==> r[k] == Entry(codes[k].id, codes[k].data, codes[k].caption)
    {
      seq(|codes|, k requires 0 <= k < |codes| reads this, codes => Entry(codes[k].id, codes[k].data, codes[k].caption))
    }

    /** An empty list, controls disabled. */
    constructor ()
      ensures Valid() && codes == []
    {
      codes := [];
      controlsEnabled := false;
    }

    /** `updateButtons()`: enabled exactly when at least two images are listed. */
    method UpdateButtons()
      modifies this
      ensures codes == old(codes) && controlsEnabled == (|codes| >= 2)
    {
      controlsEnabled := |codes| >= 2;
    }

    /** The successful end of `addQrCode`: one new entry with an empty label at the end, no cap on the count. */
    method Add(id: int, data: string) returns (code: MergeCode)
      requires Valid()
      modifies this
      ensures Valid()
      ensures fresh(code) && codes == old(codes) + [code]
      ensures code.id == id && code.data == data && code.caption == ""
    {
      code := new MergeCode(id, data);
      codes := codes + [code];
      UpdateButtons();
    }

    /** `removeQrCode(id)`: keeps the entries with another id, in order. */
    method Remove(id: int)
      requires Valid()
      modifies this
      ensures Valid()
      ensures codes == Without(old(codes), id)
    {
      WithoutDistinct(codes, id);
      codes := Without(codes, id);
      UpdateButtons();
    }

    /** `updateQrLabel(id, label)`: relabels the first entry with that id, in place; an unknown id changes nothing. */
    method UpdateLabel(id: int, caption: string)
      requires Valid()
      modifies codes
      ensures codes == old(codes) && Valid()
      ensures FindIndex(codes, id).None? ==> Snapshot() == old(Snapshot())
      ensures FindIndex(codes, id).Some? ==>
        var i := FindIndex(codes, id).value;
        Snapshot() == old(Snapshot())[i := old(Snapshot())[i].(caption := caption)]
    {
      var found := FindIndex(codes, id);
      if found.Some? {
        codes[found.value].caption := caption;
      }
    }

    /** `generateMergedQr()`: below two images it only reports the error; the grid mode draws the grid image. */
    method GenerateMergedQr(mode: string, i18nLoaded: bool) returns (r: Outcome)
      requires Valid()
      ensures |codes| < 2 ==> r == NeedTwoCodes(NeedTwoCodesMessage(i18nLoaded))
      ensures |codes| >= 2 && mode == "grid" ==>
        r.GridImage? && fresh(r.canvas) && r.canvas.ops == GridOps(Snapshot())
      ensures |codes| >= 2 && mode != "grid" ==> r == SelectionPage
      ensures r.GridImage? ==> controlsEnabled
    {
      if |codes| < 2 {
        var message := if i18nLoaded then I18n.GetTranslation("merge.errorNoCodes", "en") else NeedTwoCodesText;
        return NeedTwoCodes(message);
      }
      var chosen := if mode == "" then "selection" else mode;
      if chosen == "grid" {
        var canvas := GenerateGridMerged();
        return GridImage(canvas);
      }
      return SelectionPage;
    }

    /** `generateGridMerged()`: sizes a new canvas, paints it white, then draws every item in list order. */
    method GenerateGridMerged() returns (canvas: Canvas)
      requires Valid()
      ensures fresh(canvas)
      ensures canvas.width == Cols * Pitch && canvas.height == GridRows(|codes|) * Pitch
      ensures canvas.ops == GridOps(Snapshot())
    {
      var n := |codes|;
      ghost var es := Snapshot();
      canvas := NewGridCanvas(n);
      ghost var head := canvas.ops;
      var i := 0;
      while i < n
        invariant i <= n
        invariant canvas.width == Cols * Pitch && canvas.height == GridRows(n) * Pitch
        invariant canvas.ops == head + ItemsOps(es, i)
      {
        var code := codes[i];
        assert es[i] == Entry(code.id, code.data, code.caption);
        ItemsOpsStep(es, i, head, canvas.ops);
        DrawItem(canvas, code, i);
        i := i + 1;
      }
    }
  }

  /** A new canvas two cells wide and `ceil(n / 2)` cells high, painted white. */
  method NewGridCanvas(n: nat) returns (canvas: Canvas)
    ensures fresh(canvas)
    ensures canvas.width == Cols * Pitch && canvas.height == GridRows(n) * Pitch
    ensures canvas.ops == [FillRect(Background, 0, 0, Cols * Pitch, GridRows(n) * Pitch)]
  {
    canvas := new Canvas(true);
    var rows := (n + Cols - 1) / Cols;
    canvas.SetWidth(Cols * Pitch);
    canvas.SetHeight(rows * Pitch);
    canvas.SetFillStyle(Background);
    canvas.Fill(0, 0, canvas.width, canvas.height);
  }

  /** One turn of the grid loop: the image in cell `i`, then the label centred 15 pixels below it. */
  method DrawItem(canvas: Canvas, code: MergeCode, i: nat)
    modifies canvas
    ensures canvas.width == old(canvas.width) && canvas.height == old(canvas.height)
    ensures canvas.ops == old(canvas.ops) + ItemOps(Entry(code.id, code.data, code.caption), i)
  {
    var col := i % Cols;
    var row := i / Cols;
    var x := col * Pitch + Padding / 2;
    var y := row * Pitch + Padding / 2;
    canvas.Draw(code.data, x, y, QrSize, QrSize);
    canvas.SetFillStyle(LabelColor);
    var text := if code.caption != "" then code.caption else "QR " + NatToString(i + 1);
    canvas.Text(text, x + QrSize / 2, y + QrSize + 15);
  }

  /** `ceil(n / 2)`: the fewest two-cell rows that hold `n` items, so no row is empty and at most the last is half full. */
  lemma GridRowsFit(n: nat)
    ensures Cols * GridRows(n) >= n
    ensures GridRows(n) == 0 || Cols * (GridRows(n) - 1) < n
  {
  }

  /**
   * The grid canvas is two cells wide and `ceil(n / 2)` cells high; the
   * white background covers it; item `i` is drawn at column `i % 2`, row
   * `i / 2`, as a 200×200 image that lies on the canvas and overlaps no
   * other item's image; its label is its own or `QR <i+1>`.
   */
  lemma GridLayout(es: seq<Entry>)
    ensures var ops, n := GridOps(es), |es|;
      |ops| == 1 + 2 * n &&
      ops[0] == FillRect(Background, 0, 0, Cols * Pitch, GridRows(n) * Pitch) &&
      (forall i :: 0 <= i < n ==>
        ops[1 + 2 * i] == DrawImage(es[i].data, CellX(i), CellY(i), QrSize, QrSize) &&
        ops[2 + 2 * i] == FillText(LabelColor, LabelOf(es[i], i), CellX(i) + QrSize / 2, CellY(i) + QrSize + 15)) &&
      (forall i :: 0 <= i < n ==> Inside(CellX(i), CellY(i), QrSize, QrSize, Cols * Pitch, GridRows(n) * Pitch)) &&
      (forall i, j :: 0 <= i < j < n ==>
        Disjoint(CellX(i), CellY(i), QrSize, QrSize, CellX(j), CellY(j), QrSize, QrSize))
  {
    var n := |es|;
    ItemsOpsAt(es, n);
    forall i | 0 <= i < n ensures Inside(CellX(i), CellY(i), QrSize, QrSize, Cols * Pitch, GridRows(n) * Pitch) {
      CellInside(n, i);
    }
    forall i, j | 0 <= i < j < n ensures Disjoint(CellX(i), CellY(i), QrSize, QrSize, CellX(j), CellY(j), QrSize, QrSize) {
      CellsApart(i, j);
    }
  }

  lemma CellInside(n: nat, i: nat)
    requires i < n
    ensures Inside(CellX(i), CellY(i), QrSize, QrSize, Cols * Pitch, GridRows(n) * Pitch)
  {
    var row := i / Cols;
    assert row < GridRows(n);
    MulStep(row, GridRows(n), Pitch);
  }

  lemma CellsApart(i: nat, j: nat)
    requires i < j
    ensures Disjoint(CellX(i), CellY(i), QrSize, QrSize, CellX(j), CellY(j), QrSize, QrSize)
  {
    if i / Cols < j / Cols {
      MulStep(i / Cols, j / Cols, Pitch);
    } else {
      assert i % Cols == 0 && j % Cols == 1;
    }
  }

  /** An item's label is its own when it has one, and `QR <position from 1>` otherwise. */
  lemma LabelFallback(e: Entry, i: nat)
    ensures e.caption != "" ==> LabelOf(e, i) == e.caption
    ensures e.caption == "" ==> LabelOf(e, i) == "QR " + NatToString(i + 1) && LabelOf(e, i) != ""
  {
  }

  /**
   * The label baseline `y + 215` is on the canvas for every row but the
   * last; on the last row it is 5 pixels below the bottom edge.
   */
  lemma LabelBaseline(n: nat, i: nat)
    requires i < n
    ensures i / Cols < GridRows(n) - 1 ==> CellY(i) + QrSize + 15 < GridRows(n) * Pitch
    ensures i / Cols == GridRows(n) - 1 ==> CellY(i) + QrSize + 15 == GridRows(n) * Pitch + 5
  {
    var row := i / Cols;
    if row < GridRows(n) - 1 {
      MulStep(row, GridRows(n) - 1, Pitch);
    }
  }
}
