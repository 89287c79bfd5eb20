/**
 * `parseBatchLines`: the batch generator's text box holds one code per line,
 * either `label,value` or just `value`. Lines are split at line feeds
 * (a carriage return before a line feed trims away with the rest of the
 * white space), trimmed, and blank lines are dropped; each remaining line is
 * cut at its FIRST comma, so values may hold commas but labels cannot.
 */
module Batch {
  import opened Strings

  /** One batch entry, the source's `{ label, value }` (`label` is a keyword in Dafny, hence `caption`). */
  datatype Item = Item(caption: string, value: string)

  /** `.map((l) => l.trim())`. */
  function TrimAll(pieces: seq<string>): (r: seq<string>)
    ensures |r| == |pieces|
    ensures forall k :: 0 <= k < |pieces| ==> r[k] == Trim(pieces[k])
  {
    seq(|pieces|, k requires 0 <= k < |pieces| => Trim(pieces[k]))
  }

  /** The trimmed, non-blank lines of the text box. */
  function Lines(text: string): seq<string> {
    NonEmpty(TrimAll(Split(text, '\n')))
  }

  /**
   * One line: no comma gives an unlabelled value; otherwise caption and value
   * around the first comma, trimmed, so the caption never holds a comma.
   */
  function ParseLine(line: string): (r: Item)
    ensures ',' !in line ==> r == Item("", line)
    ensures ',' in line ==> ',' !in r.caption && Trim(r.caption) == r.caption && Trim(r.value) == r.value
  {
    var i := IndexOf(line, ',');
    if i == -1 then Item("", line)
    else
      TrimSubset(line[..i], ',');
      TrimIdempotent(line[..i]);
      TrimIdempotent(line[i + 1..]);
      Item(Trim(line[..i]), Trim(line[i + 1..]))
  }

  /** `parseBatchLines(text)`: one item per non-blank line, in the order of the lines. */
  function ParseBatchLines(text: string): (r: seq<Item>)
    ensures |r| == |Lines(text)|
    ensures forall k :: 0 <= k < |r| ==> r[k] == ParseLine(Lines(text)[k])
  {
    var lines := Lines(text);
    seq(|lines|, k requires 0 <= k < |lines| => ParseLine(lines[k]))
  }

  /** A line as the batch box expects it: trimmed, not blank, within one line. */
  predicate IsLine(l: string) {
    l != [] && Trim(l) == l && '\n' !in l
  }

  /** Every line the parser sees is trimmed, not blank and free of line feeds. */
  lemma LinesShape(text: string)
    ensures forall k :: 0 <= k < |Lines(text)| ==> IsLine(Lines(text)[k])
  {
    var pieces := Split(text, '\n');
    var trimmed := TrimAll(pieces);
    NonEmptyFacts(trimmed);
    forall k | 0 <= k < |Lines(text)| ensures IsLine(Lines(text)[k]) {
      var l := Lines(text)[k];
      var j :| 0 <= j < |trimmed| && trimmed[j] == l;
      TrimIdempotent(pieces[j]);
      TrimSubset(pieces[j], '\n');
    }
  }

  /**
   * The lines of rows joined by line feeds are the trimmed rows with the blank
   * ones dropped: a blank row in the middle removes only itself.
   */
  lemma LinesOfRows(rows: seq<string>)
    requires |rows| >= 1 && forall k :: 0 <= k < |rows| ==> '\n' !in rows[k]
    ensures Lines(Join(rows, '\n')) == NonEmpty(TrimAll(rows))
  {
    SplitJoin(rows, '\n');
  }

  /** Rows before and after a blank row are all kept, in order. */
  lemma BlankRowSkipped(before: seq<string>, blank: string, after: seq<string>)
    requires AllSpace(blank)
    ensures NonEmpty(TrimAll(before + [blank] + after)) == NonEmpty(TrimAll(before)) + NonEmpty(TrimAll(after))
  {
    TrimEmptyIff(blank);
    assert TrimAll(before + [blank] + after) == TrimAll(before) + [[]] + TrimAll(after);
    NonEmptyAppend(TrimAll(before) + [[]], TrimAll(after));
    NonEmptyAppend(TrimAll(before), [[]]);
  }

  /** A final line feed adds only an empty row, which is dropped. */
  lemma TrailingLineFeed(text: string)
    ensures ParseBatchLines(text + "\n") == ParseBatchLines(text)
  {
    SplitTrailing(text, '\n');
    var pieces := Split(text, '\n');
    var trimmed := TrimAll(pieces);
    assert Trim([]) == [];
    assert TrimAll(pieces + [[]]) == trimmed + [[]];
    NonEmptyAppend(trimmed, [[]]);
    assert NonEmpty(trimmed + [[]]) == NonEmpty(trimmed);
    assert Lines(text + "\n") == Lines(text);
  }

  /** Trimming only removes characters. */
  lemma TrimSubset(s: string, c: char)
    requires c !in s
    ensures c !in Trim(s)
  {
    var t := TrimStart(s);
    TrimStartFacts(s);
    TrimEndFacts(t);
    assert c !in t;
  }

  /** Trimming a list of trimmed strings changes nothing. */
  lemma TrimAllFixed(lines: seq<string>)
    requires forall k :: 0 <= k < |lines| ==> Trim(lines[k]) == lines[k]
    ensures TrimAll(lines) == lines
  {
  }

  /** Lines written one per row, each already trimmed and not blank, are read back unchanged. */
  lemma LinesOfJoin(lines: seq<string>)
    requires forall k :: 0 <= k < |lines| ==> IsLine(lines[k])
    ensures Lines(Join(lines, '\n')) == lines
  {
    if lines == [] {
      assert Split("", '\n') == [""];
      assert TrimAll([""]) == [""];
    } else {
      SplitJoin(lines, '\n');
      assert Split(Join(lines, '\n'), '\n') == lines;
      TrimAllFixed(lines);
      NonEmptyFacts(lines);
      assert NonEmpty(lines) == lines;
    }
  }

  /**
   * Windows and mixed line ends: rows that may each end in a carriage return
   * give the same lines as the rows without it, as splitting at `\r?\n` would.
   */
  lemma CarriageReturnsIgnored(rows: seq<string>, crlf: seq<string>)
    requires |rows| >= 1 && forall k :: 0 <= k < |rows| ==> '\n' !in rows[k]
    requires |crlf| == |rows| && forall k :: 0 <= k < |rows| ==> crlf[k] == rows[k] || crlf[k] == rows[k] + ['\r']
    ensures Lines(Join(crlf, '\n')) == Lines(Join(rows, '\n'))
  {
    SplitJoin(rows, '\n');
    assert forall k :: 0 <= k < |crlf| ==> '\n' !in crlf[k] by {
      forall k | 0 <= k < |crlf| ensures '\n' !in crlf[k] {
        assert crlf[k] == rows[k] || crlf[k] == rows[k] + ['\r'];
      }
    }
    SplitJoin(crlf, '\n');
    TrimAllCarriageReturns(rows, crlf);
  }

  lemma TrimAllCarriageReturns(rows: seq<string>, crlf: seq<string>)
    requires |crlf| == |rows| && forall k :: 0 <= k < |rows| ==> crlf[k] == rows[k] || crlf[k] == rows[k] + ['\r']
    ensures TrimAll(crlf) == TrimAll(rows)
  {
    forall k | 0 <= k < |rows| ensures TrimAll(crlf)[k] == TrimAll(rows)[k] {
      TrimCarriageReturn(rows[k]);
    }
  }

  /** A line is cut at its first comma and each side is trimmed, whatever white space surrounds them. */
  lemma ParseLineFirstComma(a: string, b: string)
    requires ',' !in a
    ensures ParseLine(a + [','] + b) == Item(Trim(a), Trim(b))
  {
    IndexOfAfter(a, ',', b);
    assert a + [','] + b == a + ([','] + b);
  }

  /** Writing `caption,value` and parsing it gives the entry back, when the caption has no comma and both are trimmed. */
  lemma ParseLineRoundTrip(caption: string, value: string)
    requires ',' !in caption && Trim(caption) == caption && Trim(value) == value
    ensures ParseLine(caption + [','] + value) == Item(caption, value)
  {
    ParseLineFirstComma(caption, value);
  }

  /** The row the batch box holds for an entry. */
  function Format(item: Item): string {
    item.caption + [','] + item.value
  }

  /** An entry that survives a trip through the text box. */
  predicate Writable(item: Item) {
    ',' !in item.caption && '\n' !in item.caption && '\n' !in item.value &&
    Trim(item.caption) == item.caption && Trim(item.value) == item.value
  }

  /** A formatted writable entry is a line the parser keeps. */
  lemma FormatIsLine(item: Item)
    requires Writable(item)
    ensures IsLine(Format(item))
  {
    var s := Format(item);
    TrimEnds(item.caption);
    TrimEnds(item.value);
    assert s[0] == if item.caption == [] then ',' else item.caption[0];
    assert s[|s| - 1] == if item.value == [] then ',' else item.value[|item.value| - 1];
    TrimFixed(s);
  }

  /** Entries written one per row as `caption,value` are parsed back exactly, in order. */
  lemma BatchRoundTrip(items: seq<Item>)
    requires forall k :: 0 <= k < |items| ==> Writable(items[k])
    ensures ParseBatchLines(Join(seq(|items|, k requires 0 <= k < |items| => Format(items[k])), '\n')) == items
  {
    var rows := seq(|items|, k requires 0 <= k < |items| => Format(items[k]));
    forall k | 0 <= k < |rows| ensures IsLine(rows[k]) {
      FormatIsLine(items[k]);
    }
    LinesOfJoin(rows);
    var r := ParseBatchLines(Join(rows, '\n'));
    forall k | 0 <= k < |items| ensures r[k] == items[k] {
      ParseLineRoundTrip(items[k].caption, items[k].value);
    }
  }
}
