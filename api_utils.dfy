/** The shopping-list document: lines are drawn top-down at a cursor that drops a fixed
    step per line and moves to the top of a fresh page once it falls below a margin.
    The drawing itself is abstracted to a list of (page, y, text) commands. */
module PdfLayout {
  import opened Common

  /** One aggregated line of the shopping list. */
  datatype ShoppingEntry = ShoppingEntry(name: string, unit: string, total: int)

  /** A `drawString` call: the text placed at height `y` on page `page` (pages count from 1). */
  datatype Draw = Draw(page: nat, y: int, text: string)

  datatype Cursor = Cursor(page: nat, y: int)

  /** Vertical advance per line. */
  const LINE_STEP := 20
  /** Height of a US-letter page in points. */
  const LETTER_HEIGHT := 792
  /** Bottom margin, and distance of the first line from the top, of the download document. */
  const MARGIN := 40

  const EMPTY_TEXT := "Список покупок пуст."

  function Header(username: string): string
  {
    "Список покупок для пользователя: " + username
  }

  function EntryText(e: ShoppingEntry): string
  {
    e.name + ": " + IntToString(e.total) + " " + e.unit
  }

  function EntryTexts(entries: seq<ShoppingEntry>): (texts: seq<string>)
    ensures |texts| == |entries|
    ensures forall i :: 0 <= i < |entries| ==> texts[i] == EntryText(entries[i])
  {
    seq(|entries|, i requires 0 <= i < |entries| => EntryText(entries[i]))
  }

  /** The download's suggested file name. */
  function Filename(username: string): string
  {
    "shopping_cart_" + username + ".pdf"
  }

  /** Different users get different file names. */
  lemma FilenameInjective(a: string, b: string)
    requires Filename(a) == Filename(b)
    ensures a == b
  {
    var fa, fb := Filename(a), Filename(b);
    assert fa[14..|fa| - 4] == a;
    assert fb[14..|fb| - 4] == b;
  }

  // ---------------------------------------------------------------------------
  // Cursor arithmetic

  /** The cursor after one line: down one step, or the top of the next page once below
      the margin. */
  function Advance(c: Cursor, top: int, margin: int): Cursor
  {
    if c.y - LINE_STEP < margin then Cursor(c.page + 1, top) else Cursor(c.page, c.y - LINE_STEP)
  }

  /** The draws for `texts`, starting at cursor `c`. */
  function Place(texts: seq<string>, c: Cursor, top: int, margin: int): seq<Draw>
  {
    if |texts| == 0 then []
    else [Draw(c.page, c.y, texts[0])] + Place(texts[1..], Advance(c, top, margin), top, margin)
  }

  /** The cursor once `texts` are drawn. */
  function After(texts: seq<string>, c: Cursor, top: int, margin: int): Cursor
  {
    if |texts| == 0 then c else After(texts[1..], Advance(c, top, margin), top, margin)
  }

  /** How many of `texts` are followed by a page break. */
  function Breaks(texts: seq<string>, c: Cursor, top: int, margin: int): nat
  {
    if |texts| == 0 then 0
    else (if c.y - LINE_STEP < margin then 1 else 0) + Breaks(texts[1..], Advance(c, top, margin), top, margin)
  }

  /** Where a line may follow the previous one: one step lower on the same page, or at
      the top of the next page. */
  predicate Follows(prev: Draw, next: Draw, top: int)
  {
    || (next.page == prev.page && next.y == prev.y - LINE_STEP)
    || (next.page == prev.page + 1 && next.y == top)
  }

  /** Every text is drawn once, in order, never below the margin, and each line follows
      the previous one. */
  lemma {:induction false} PlaceSpec(texts: seq<string>, c: Cursor, top: int, margin: int)
    requires margin <= c.y && margin <= top
    ensures var d := Place(texts, c, top, margin);
            && |d| == |texts|
            && (forall i | 0 <= i < |d| :: d[i].text == texts[i] && margin <= d[i].y && c.page <= d[i].page)
            && (|d| > 0 ==> d[0].page == c.page && d[0].y == c.y)
            && (forall i, j | 0 <= i < j < |d| && j == i + 1 :: Follows(d[i], d[j], top))
    decreases |texts|
  {
    if |texts| > 0 {
      var c' := Advance(c, top, margin);
      PlaceSpec(texts[1..], c', top, margin);
      var d := Place(texts, c, top, margin);
      var rest := Place(texts[1..], c', top, margin);
      assert d == [Draw(c.page, c.y, texts[0])] + rest;
      forall i | 0 <= i < |d| ensures d[i].text == texts[i] && margin <= d[i].y && c.page <= d[i].page {
        if i > 0 {
          assert d[i] == rest[i - 1] && texts[i] == texts[1..][i - 1];
        }
      }
      forall i, j | 0 <= i < j < |d| && j == i + 1 ensures Follows(d[i], d[j], top) {
        if i > 0 {
          assert d[i] == rest[i - 1] && d[j] == rest[j - 1];
        }
      }
    }
  }

  /** The cursor ends on the page reached after the breaks, never below the margin. */
  lemma {:induction false} AfterSpec(texts: seq<string>, c: Cursor, top: int, margin: int)
    requires margin <= c.y && margin <= top
    ensures After(texts, c, top, margin).page == c.page + Breaks(texts, c, top, margin)
    ensures margin <= After(texts, c, top, margin).y
    decreases |texts|
  {
    if |texts| > 0 {
      AfterSpec(texts[1..], Advance(c, top, margin), top, margin);
    }
  }

  /** Drawing one more text appends one draw at the cursor reached so far. */
  lemma {:induction false} PlaceSnoc(texts: seq<string>, t: string, c: Cursor, top: int, margin: int)
    ensures Place(texts + [t], c, top, margin)
            == Place(texts, c, top, margin) + [Draw(After(texts, c, top, margin).page, After(texts, c, top, margin).y, t)]
    ensures After(texts + [t], c, top, margin) == Advance(After(texts, c, top, margin), top, margin)
    ensures Breaks(texts + [t], c, top, margin)
            == Breaks(texts, c, top, margin) + (if After(texts, c, top, margin).y - LINE_STEP < margin then 1 else 0)
    decreases |texts|
  {
    if |texts| > 0 {
      assert (texts + [t])[1..] == texts[1..] + [t];
      PlaceSnoc(texts[1..], t, Advance(c, top, margin), top, margin);
    } else {
      assert texts + [t] == [t];
    }
  }

  // ---------------------------------------------------------------------------
  // The download document

  /** `generate_pdf`: the header naming the user at the top of page 1; then either the
      "empty" line, or one line per entry laid out with the page-break rule. `pages` is the
      number of pages emitted: the final `showPage` plus one per break. */
  method GeneratePdf(username: string, entries: seq<ShoppingEntry>)
    returns (filename: string, draws: seq<Draw>, pages: nat)
    ensures filename == Filename(username)
    ensures |draws| >= 2 && draws[0] == Draw(1, LETTER_HEIGHT - MARGIN, Header(username))
    ensures |entries| == 0 ==>
              draws == [Draw(1, LETTER_HEIGHT - MARGIN, Header(username)),
                        Draw(1, LETTER_HEIGHT - MARGIN - LINE_STEP, EMPTY_TEXT)]
              && pages == 1
    ensures |entries| > 0 ==>
              var start := Cursor(1, LETTER_HEIGHT - MARGIN - LINE_STEP);
              && draws[1..] == Place(EntryTexts(entries), start, LETTER_HEIGHT - MARGIN, MARGIN)
              && pages == 1 + Breaks(EntryTexts(entries), start, LETTER_HEIGHT - MARGIN, MARGIN)
  {
    filename := Filename(username);
    var height := LETTER_HEIGHT;
    var page: nat := 1;
    var y := height - MARGIN;
    draws := [Draw(page, y, Header(username))];
    y := y - LINE_STEP;
    if |entries| == 0 {
      draws := draws + [Draw(page, y, EMPTY_TEXT)];
      pages := page;
      return;
    }
    ghost var texts := EntryTexts(entries);
    ghost var start := Cursor(1, y);
    var i := 0;
    while i < |entries|
      invariant 0 <= i <= |entries|
      invariant |draws| >= 1 && draws[0] == Draw(1, height - MARGIN, Header(username))
      invariant draws[1..] == Place(texts[..i], start, height - MARGIN, MARGIN)
      invariant Cursor(page, y) == After(texts[..i], start, height - MARGIN, MARGIN)
      invariant page == 1 + Breaks(texts[..i], start, height - MARGIN, MARGIN)
    {
      PlaceSnoc(texts[..i], texts[i], start, height - MARGIN, MARGIN);
      PrefixSnoc(texts, i);
      var line := EntryText(entries[i]);
      TailSnoc(draws, Draw(page, y, line));
      draws := draws + [Draw(page, y, line)];
      y := y - LINE_STEP;
      if y < MARGIN {
        page := page + 1;
        y := height - MARGIN;
      }
      i := i + 1;
    }
    assert texts[..i] == texts;
    pages := page;
  }
}
