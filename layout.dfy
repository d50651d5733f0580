/**
 * The two screens of a category (`_display_title`, `_display_content`):
 * a centred, underlined title, then either the wrapped subtitle or the
 * wrapped description, spaced vertically by integer arithmetic over the
 * display size and the font heights. A screen is a list of draw operations;
 * their rendering is the glyph renderer's business.
 */
module Layout {
  import opened Wrappers
  import opened PyStr
  import opened JsonValue
  import opened TextWrap
  import opened Glyphs

  const MarginTop: int := 8
  const MarginBottom: int := 1
  const UnderlineSpace: int := 1
  /** Side margin taken off the display width before wrapping (2 pixels each side). */
  const WrapInset: int := 4
  const SubtitleMaxLines: int := 3
  const BodyMaxLines: int := 10
  const TitleColor: Color := Color(255, 255, 255)
  const SubtitleColor: Color := Color(200, 200, 200)

  /**
   * What the screens need from the display: its size, the heights of the
   * title and body fonts, and their text measures.
   */
  datatype Screen = Screen(
    width: int, height: int,
    titleHeight: int, bodyHeight: int,
    titleWidth: string -> int, bodyWidth: string -> int)

  datatype Font = TitleFont | BodyFont

  datatype DrawOp =
    | Text(text: string, x: int, y: int, font: Font, color: Color)
    | HLine(x0: int, x1: int, y: int, color: Color)

  /** What one call of `display` leaves on the matrix. */
  datatype Frame = NoDataFrame | ErrorFrame | Drawn(ops: seq<DrawOp>)

  /** `(display_width - text_width) // 2`: the left edge that centres a text. */
  function CenterX(displayWidth: int, textWidth: int): (x: int)
    ensures var rightMargin := displayWidth - (x + textWidth);
      0 <= rightMargin - x <= 1
  {
    (displayWidth - textWidth) / 2
  }

  /** The row of the title underline: one pixel below the title. */
  function UnderlineY(scr: Screen): int {
    MarginTop + scr.titleHeight + 1
  }

  /** The rows left for text below the underline. */
  function AvailableSpace(scr: Screen): int {
    scr.height - UnderlineY(scr) - MarginBottom
  }

  /**
   * The subtitle's distance from the underline: half the free rows, at
   * least 2, so that the subtitle block sits centred when there is room.
   */
  function SubtitleGap(available: int, n: int, lineHeight: int): (gap: int)
    ensures gap >= 2
    ensures var slack := available - n * lineHeight;
      slack >= 4 ==> 2 * gap <= slack <= 2 * gap + 1
    ensures available - n * lineHeight < 4 ==> gap == 2
  {
    Max(2, (available - n * lineHeight) / 2)
  }

  /**
   * The description's spacing (rows after the underline, rows between lines):
   * 30% of the free rows go above the block and 70% between its lines, with
   * minima of 2 and 1; a block that does not fit gets 4 and 1.
   */
  function BodySpacing(available: int, n: int, lineHeight: int): (spacing: (int, int))
    requires n >= 1
    ensures spacing.0 >= 2
    ensures n > 1 ==> spacing.1 >= 1
    ensures n == 1 && n * lineHeight < available ==> spacing.1 == 0
    ensures n * lineHeight >= available ==> spacing == (4, 1)
  {
    var content := n * lineHeight;
    if content < available then
      var extra := available - content;
      var after := Max(2, (3 * extra) / 10);
      var between := if n > 1 then Max(1, (7 * extra) / (10 * Max(1, n - 1))) else 0;
      (after, between)
    else (4, 1)
  }

  /**
   * When the block fits, 30% of the free rows, rounded down, go above it
   * and 70%, shared out over the gaps and rounded down, between its lines,
   * unless the minimum of 2 above or 1 between is larger.
   */
  lemma BodySpacingSplit(available: int, n: int, lineHeight: int)
    requires n >= 1 && n * lineHeight < available
    ensures var extra, spacing := available - n * lineHeight, BodySpacing(available, n, lineHeight);
      && (3 * extra >= 20 ==> 10 * spacing.0 <= 3 * extra < 10 * (spacing.0 + 1))
      && (3 * extra < 20 ==> spacing.0 == 2)
    ensures var extra, d, spacing := available - n * lineHeight, 10 * (n - 1), BodySpacing(available, n, lineHeight);
      n > 1 ==>
        && (7 * extra >= d ==> d * spacing.1 <= 7 * extra < d * (spacing.1 + 1))
        && (7 * extra < d ==> spacing.1 == 1)
  {
    var extra := available - n * lineHeight;
    DivBracket(3 * extra, 10);
    if n > 1 {
      var d := 10 * (n - 1);
      assert 10 * Max(1, n - 1) == d;
      DivBracket(7 * extra, d);
      if 7 * extra < d {
        DivSmall(7 * extra, d);
      }
    }
  }

  /** A non-negative number below the divisor divides to 0. */
  lemma DivSmall(a: int, d: int)
    requires 0 <= a < d
    ensures a / d == 0
  {
  }

  /** Integer division rounds down: `d * (a / d) <= a < d * (a / d + 1)`. */
  lemma DivBracket(a: int, d: int)
    requires d > 0
    ensures d * (a / d) <= a < d * (a / d + 1)
  {
    var q, r := a / d, a % d;
    assert a == d * q + r;
    assert d * (q + 1) == d * q + d;
  }

  /**
   * When neither minimum applies, the rows handed out above and between the
   * lines never exceed the free rows.
   */
  lemma BodySpacingWithinSlack(available: int, n: int, lineHeight: int)
    requires n >= 1 && n * lineHeight < available
    requires (3 * (available - n * lineHeight)) / 10 >= 2
    requires n == 1 || (7 * (available - n * lineHeight)) / (10 * (n - 1)) >= 1
    ensures var (after, between) := BodySpacing(available, n, lineHeight);
      after + (n - 1) * between <= available - n * lineHeight
  {
    var extra := available - n * lineHeight;
    var (after, between) := BodySpacing(available, n, lineHeight);
    assert after == (3 * extra) / 10;
    assert 10 * after <= 3 * extra;
    if n > 1 {
      var d := 10 * (n - 1);
      assert between == (7 * extra) / d;
      assert d * between <= 7 * extra;
      assert (n - 1) * between * 10 == d * between;
      assert 10 * (after + (n - 1) * between) <= 10 * extra;
    }
  }

  /** `d.get(k1, d.get(k2, ... default))`: the value of the first key present. */
  function FieldOr(m: Members, keys: seq<string>, default: Json): (v: Json)
    ensures keys == [] ==> v == default
    ensures keys != [] && keys[0] in Keys(m) ==> Some(v) == Get(m, keys[0])
  {
    if keys == [] then default
    else match Get(m, keys[0])
      case Some(x) => x
      case None => FieldOr(m, keys[1..], default)
  }

  /** The value is that of the first key present, whichever position it has. */
  lemma {:induction false} FieldOrFirstPresent(m: Members, keys: seq<string>, default: Json, i: int)
    requires 0 <= i < |keys| && keys[i] in Keys(m)
    requires forall j :: 0 <= j < i ==> keys[j] !in Keys(m)
    ensures Some(FieldOr(m, keys, default)) == Get(m, keys[i])
  {
    if i > 0 {
      assert keys[0] !in Keys(m);
      assert keys[1..][i - 1] == keys[i];
      forall j | 0 <= j < i - 1 ensures keys[1..][j] !in Keys(m) {
        assert keys[1..][j] == keys[j + 1];
      }
      FieldOrFirstPresent(m, keys[1..], default, i - 1);
    }
  }

  /** The default is used only when none of the keys is present. */
  lemma {:induction false} FieldOrNonePresent(m: Members, keys: seq<string>, default: Json)
    requires forall i :: 0 <= i < |keys| ==> keys[i] !in Keys(m)
    ensures FieldOr(m, keys, default) == default
  {
    if keys != [] {
      assert keys[0] !in Keys(m);
      forall i | 0 <= i < |keys| - 1 ensures keys[1..][i] !in Keys(m) {
        assert keys[1..][i] == keys[i + 1];
      }
      FieldOrNonePresent(m, keys[1..], default);
    }
  }

  /** `[line for line in lines if line.strip()]`. */
  function NonBlank(lines: seq<string>): (r: seq<string>)
    ensures |r| <= |lines|
  {
    if lines == [] then []
    else if Strip(lines[0]) != [] then [lines[0]] + NonBlank(lines[1..])
    else NonBlank(lines[1..])
  }

  /** A line is kept exactly when it is one of the lines and is not blank. */
  lemma {:induction false} NonBlankKeeps(lines: seq<string>, l: string)
    ensures l in NonBlank(lines) <==> l in lines && Strip(l) != []
  {
    if lines != [] {
      NonBlankKeeps(lines[1..], l);
      assert lines == [lines[0]] + lines[1..];
    }
  }

  /** Line `k` of a block: centred, `pitch` rows below the previous line. */
  function PlacedLine(line: string, k: int, startY: int, pitch: int, scr: Screen): DrawOp {
    Text(line, CenterX(scr.width, scr.bodyWidth(line)), startY + k * pitch, BodyFont, SubtitleColor)
  }

  /** A block of centred body-font lines, starting at `startY`, `pitch` rows apart. */
  function Placed(lines: seq<string>, startY: int, pitch: int, scr: Screen): (ops: seq<DrawOp>)
    ensures |ops| == |lines|
  {
    seq(|lines|, k requires 0 <= k < |lines| => PlacedLine(lines[k], k, startY, pitch, scr))
  }

  /** The line loop of both screens, stepping `current_y` after every line but the last. */
  method PlaceLines(lines: seq<string>, startY: int, pitch: int, scr: Screen) returns (ops: seq<DrawOp>)
    ensures ops == Placed(lines, startY, pitch, scr)
  {
    ops := [];
    var currentY := startY;
    for k := 0 to |lines|
      invariant |ops| == k
      invariant k < |lines| ==> currentY == startY + k * pitch
      invariant forall i :: 0 <= i < k ==> ops[i] == PlacedLine(lines[i], i, startY, pitch, scr)
    {
      var line := lines[k];
      var lineX := CenterX(scr.width, scr.bodyWidth(line));
      ops := ops + [Text(line, lineX, currentY, BodyFont, SubtitleColor)];
      if k < |lines| - 1 {
        currentY := currentY + pitch;
      }
    }
  }

  /** The title, centred at the top margin, and its underline. */
  function Header(scr: Screen, title: string): (ops: seq<DrawOp>)
    ensures |ops| == 2
    ensures ops[0] == Text(title, CenterX(scr.width, scr.titleWidth(title)), MarginTop, TitleFont, TitleColor)
    ensures ops[1].HLine? && ops[1].color == TitleColor
    ensures ops[1].x0 == ops[0].x && ops[1].x1 - ops[1].x0 == scr.titleWidth(title)
    ensures ops[1].y == ops[0].y + scr.titleHeight + 1
  {
    var titleWidth := scr.titleWidth(title);
    var titleX := CenterX(scr.width, titleWidth);
    [Text(title, titleX, MarginTop, TitleFont, TitleColor),
     HLine(titleX, titleX + titleWidth, UnderlineY(scr), TitleColor)]
  }

  function TitleOf(m: Members): Json {
    FieldOr(m, ["title", "word"], JString("N/A"))
  }

  function SubtitleOf(m: Members): Json {
    FieldOr(m, ["subtitle", "pronunciation", "type"], JString(""))
  }

  function DescriptionOf(m: Members): Json {
    FieldOr(m, ["description", "definition", "content", "text"], JString("No content"))
  }

  /** The subtitle's non-blank wrapped lines: at most three. */
  function SubtitleLines(scr: Screen, subtitle: string): (lines: seq<string>)
    ensures |lines| <= SubtitleMaxLines
  {
    NonBlank(Wrap(subtitle, scr.width - WrapInset, scr.bodyWidth, SubtitleMaxLines))
  }

  /** The description's non-blank wrapped lines: at most ten. */
  function BodyLines(scr: Screen, description: string): (lines: seq<string>)
    ensures |lines| <= BodyMaxLines
  {
    NonBlank(Wrap(description, scr.width - WrapInset, scr.bodyWidth, BodyMaxLines))
  }

  /** The subtitle block of the title screen, for the non-blank wrapped lines. */
  function SubtitleBlock(scr: Screen, lines: seq<string>): seq<DrawOp> {
    if lines == [] then []
    else
      var gap := SubtitleGap(AvailableSpace(scr), |lines|, scr.bodyHeight);
      Placed(lines, UnderlineY(scr) + gap + UnderlineSpace, scr.bodyHeight + 1, scr)
  }

  /** The description block of the content screen, for the non-blank wrapped lines. */
  function BodyBlock(scr: Screen, lines: seq<string>): seq<DrawOp> {
    if lines == [] then []
    else
      var spacing := BodySpacing(AvailableSpace(scr), |lines|, scr.bodyHeight);
      Placed(lines, UnderlineY(scr) + spacing.0 + UnderlineSpace + 1, scr.bodyHeight + spacing.1, scr)
  }

  /**
   * `_display_title(config, item)`. An item that is not an object, a title
   * that is not a string and a truthy subtitle that is not a string all
   * raise inside the call and end on the error screen.
   */
  function TitleView(scr: Screen, item: Json): (r: Frame)
    ensures r != NoDataFrame
    ensures !item.JObject? ==> r == ErrorFrame
    ensures r.Drawn? ==> item.JObject? && TitleOf(item.members).JString?
  {
    if !item.JObject? then ErrorFrame
    else TitleScreen(scr, TitleOf(item.members), SubtitleOf(item.members))
  }

  /** The title screen for a looked-up title and subtitle. */
  function TitleScreen(scr: Screen, title: Json, subtitle: Json): (r: Frame)
    ensures r != NoDataFrame
    ensures r == ErrorFrame <==> !title.JString? || (Truthy(subtitle) && !subtitle.JString?)
    ensures r.Drawn? ==> 2 <= |r.ops| <= 2 + SubtitleMaxLines && r.ops[..2] == Header(scr, title.s)
    ensures r.Drawn? && !Truthy(subtitle) ==> |r.ops| == 2
  {
    if !title.JString? then ErrorFrame
    else if !Truthy(subtitle) then Drawn(Header(scr, title.s))
    else if !subtitle.JString? then ErrorFrame
    else Drawn(Header(scr, title.s) + SubtitleBlock(scr, SubtitleLines(scr, subtitle.s)))
  }

  /**
   * `_display_content(config, item)`. The description is sliced for a log
   * line before anything else: only a string or a list survives that, an
   * empty list then wraps to a blank line, and any other list fails in the
   * wrapper.
   */
  function ContentView(scr: Screen, item: Json): (r: Frame)
    ensures r != NoDataFrame
    ensures !item.JObject? ==> r == ErrorFrame
    ensures r.Drawn? ==> item.JObject? && TitleOf(item.members).JString?
  {
    if !item.JObject? then ErrorFrame
    else ContentScreen(scr, TitleOf(item.members), DescriptionOf(item.members))
  }

  /** The content screen for a looked-up title and description. */
  function ContentScreen(scr: Screen, title: Json, description: Json): (r: Frame)
    ensures r != NoDataFrame
    ensures r == ErrorFrame <==> !title.JString? || (description != JArray([]) && !description.JString?)
    ensures r.Drawn? ==> 2 <= |r.ops| <= 2 + BodyMaxLines && r.ops[..2] == Header(scr, title.s)
    ensures r.Drawn? && description == JArray([]) ==> |r.ops| == 2
  {
    if !title.JString? then ErrorFrame
    else if description == JArray([]) then Drawn(Header(scr, title.s))
    else if !description.JString? then ErrorFrame
    else Drawn(Header(scr, title.s) + BodyBlock(scr, BodyLines(scr, description.s)))
  }

  /** A non-empty subtitle block is its lines placed from the gap's start row, one row apart. */
  lemma {:induction false} SubtitleBlockIsPlaced(scr: Screen, lines: seq<string>, startY: int)
    requires lines != []
    requires startY == UnderlineY(scr) + SubtitleGap(AvailableSpace(scr), |lines|, scr.bodyHeight) + UnderlineSpace
    ensures SubtitleBlock(scr, lines) == Placed(lines, startY, scr.bodyHeight + 1, scr)
  {
  }

  /** A non-empty description block is its lines placed from the spacing's start row and pitch. */
  lemma {:induction false} BodyBlockIsPlaced(scr: Screen, lines: seq<string>, startY: int, pitch: int)
    requires lines != []
    requires startY == UnderlineY(scr) + BodySpacing(AvailableSpace(scr), |lines|, scr.bodyHeight).0 + UnderlineSpace + 1
    requires pitch == scr.bodyHeight + BodySpacing(AvailableSpace(scr), |lines|, scr.bodyHeight).1
    ensures BodyBlock(scr, lines) == Placed(lines, startY, pitch, scr)
  {
  }

  /**
   * `_display_title` as the plugin runs it: the lookups, the header, then
   * the wrapping loop and the line loop for a truthy subtitle.
   */
  method DisplayTitle(scr: Screen, item: Json) returns (frame: Frame)
    ensures frame == TitleView(scr, item)
  {
    if !item.JObject? {
      return ErrorFrame;
    }
    var title := TitleOf(item.members);
    var subtitle := SubtitleOf(item.members);
    if !title.JString? {
      return ErrorFrame;
    }
    var ops := Header(scr, title.s);
    if Truthy(subtitle) {
      if !subtitle.JString? {
        return ErrorFrame;
      }
      var lines := SubtitleLines(scr, subtitle.s);
      if lines != [] {
        var gap := SubtitleGap(AvailableSpace(scr), |lines|, scr.bodyHeight);
        var startY := UnderlineY(scr) + gap + UnderlineSpace;
        SubtitleBlockIsPlaced(scr, lines, startY);
        var block := PlaceLines(lines, startY, scr.bodyHeight + 1, scr);
        ops := ops + block;
      } else {
        assert ops + SubtitleBlock(scr, lines) == ops;
      }
      assert ops == Header(scr, title.s) + SubtitleBlock(scr, SubtitleLines(scr, subtitle.s));
    }
    frame := Drawn(ops);
  }

  /**
   * `_display_content` as the plugin runs it: the lookups, the header, the
   * wrapping loop, the spacing, then the line loop.
   */
  method DisplayContent(scr: Screen, item: Json) returns (frame: Frame)
    ensures frame == ContentView(scr, item)
  {
    if !item.JObject? {
      return ErrorFrame;
    }
    var title := TitleOf(item.members);
    var description := DescriptionOf(item.members);
    if !title.JString? {
      return ErrorFrame;
    }
    var ops := Header(scr, title.s);
    if description == JArray([]) {
      return Drawn(ops);
    }
    if !description.JString? {
      return ErrorFrame;
    }
    var lines := BodyLines(scr, description.s);
    if lines != [] {
      var spacing := BodySpacing(AvailableSpace(scr), |lines|, scr.bodyHeight);
      var startY := UnderlineY(scr) + spacing.0 + UnderlineSpace + 1;
      var pitch := scr.bodyHeight + spacing.1;
      BodyBlockIsPlaced(scr, lines, startY, pitch);
      var block := PlaceLines(lines, startY, pitch, scr);
      assert block == BodyBlock(scr, lines);
      ops := ops + block;
      assert ops == Header(scr, title.s) + BodyBlock(scr, lines);
    } else {
      assert ops + BodyBlock(scr, lines) == ops;
      assert ops == Header(scr, title.s) + BodyBlock(scr, lines);
    }
    frame := Drawn(ops);
  }

  /** Both screens of an item draw the title and its underline in the same place. */
  lemma ViewsShareHeader(scr: Screen, item: Json)
    requires TitleView(scr, item).Drawn? && ContentView(scr, item).Drawn?
    ensures TitleView(scr, item).ops[..2] == ContentView(scr, item).ops[..2]
    ensures TitleView(scr, item).ops[0].Text? && TitleView(scr, item).ops[0].y == MarginTop
    ensures TitleView(scr, item).ops[1].HLine? && TitleView(scr, item).ops[1].y == UnderlineY(scr)
  {
    TitleViewShape(scr, item);
    ContentViewShape(scr, item);
  }

  /** Consecutive lines of a block start exactly `pitch` rows apart, each centred. */
  lemma PlacedPitch(lines: seq<string>, startY: int, pitch: int, scr: Screen)
    ensures var ops := Placed(lines, startY, pitch, scr);
      && (forall k :: 0 <= k < |ops| ==>
           ops[k].Text? && ops[k].text == lines[k] && ops[k].x == CenterX(scr.width, scr.bodyWidth(lines[k])))
      && (|ops| > 0 ==> ops[0].y == startY)
      && (forall k :: 0 <= k < |ops| - 1 ==> ops[k + 1].y == ops[k].y + pitch)
  {
    var ops := Placed(lines, startY, pitch, scr);
    forall k | 0 <= k < |ops| - 1 ensures ops[k + 1].y == ops[k].y + pitch {
      assert ops[k].y == startY + k * pitch;
      assert ops[k + 1].y == startY + (k + 1) * pitch;
      assert (k + 1) * pitch == k * pitch + pitch;
    }
  }

  /**
   * A subtitle block: every line centred; the first starts the subtitle gap
   * plus one row below the underline, so at least three rows below it; each
   * next one a line height plus one row further down.
   */
  lemma SubtitleBlockLayout(scr: Screen, lines: seq<string>)
    ensures var block := SubtitleBlock(scr, lines);
      && |block| == |lines|
      && (forall k :: 0 <= k < |block| ==>
           block[k].Text? && block[k].text == lines[k]
           && block[k].x == CenterX(scr.width, scr.bodyWidth(lines[k])))
      && (|block| > 0 ==>
            block[0].y == UnderlineY(scr) + SubtitleGap(AvailableSpace(scr), |lines|, scr.bodyHeight) + 1
            && block[0].y >= UnderlineY(scr) + 3)
      && (forall k :: 0 <= k < |block| - 1 ==> block[k + 1].y == block[k].y + scr.bodyHeight + 1)
  {
    if lines != [] {
      var gap := SubtitleGap(AvailableSpace(scr), |lines|, scr.bodyHeight);
      PlacedPitch(lines, UnderlineY(scr) + gap + UnderlineSpace, scr.bodyHeight + 1, scr);
    }
  }

  /**
   * A description block: every line centred; the first starts the rows
   * after the underline plus two below it, so at least four; each next one
   * a line height plus the rows between lines further down, so consecutive
   * lines never overlap.
   */
  lemma BodyBlockLayout(scr: Screen, lines: seq<string>)
    ensures var block := BodyBlock(scr, lines);
      && |block| == |lines|
      && (forall k :: 0 <= k < |block| ==>
           block[k].Text? && block[k].text == lines[k]
           && block[k].x == CenterX(scr.width, scr.bodyWidth(lines[k])))
      && (|block| > 0 ==>
            block[0].y == UnderlineY(scr) + BodySpacing(AvailableSpace(scr), |lines|, scr.bodyHeight).0 + 2
            && block[0].y >= UnderlineY(scr) + 4)
      && (forall k :: 0 <= k < |block| - 1 ==>
            block[k + 1].y == block[k].y + scr.bodyHeight + BodySpacing(AvailableSpace(scr), |lines|, scr.bodyHeight).1
            && block[k + 1].y >= block[k].y + scr.bodyHeight + 1)
  {
    if lines != [] {
      var spacing := BodySpacing(AvailableSpace(scr), |lines|, scr.bodyHeight);
      assert |lines| > 1 ==> spacing.1 >= 1;
      PlacedPitch(lines, UnderlineY(scr) + spacing.0 + UnderlineSpace + 1, scr.bodyHeight + spacing.1, scr);
    }
  }

  /** The title screen draws the header and then at most three subtitle lines. */
  lemma TitleViewShape(scr: Screen, item: Json)
    requires TitleView(scr, item).Drawn?
    ensures var ops := TitleView(scr, item).ops;
      && 2 <= |ops| <= 2 + SubtitleMaxLines
      && ops[..2] == Header(scr, TitleOf(item.members).s)
      && (|ops| > 2 ==> ops[2..] == SubtitleBlock(scr, SubtitleLines(scr, SubtitleOf(item.members).s)))
  {
  }

  /** The content screen draws the header and then at most ten description lines. */
  lemma ContentViewShape(scr: Screen, item: Json)
    requires ContentView(scr, item).Drawn?
    ensures var ops := ContentView(scr, item).ops;
      && 2 <= |ops| <= 2 + BodyMaxLines
      && ops[..2] == Header(scr, TitleOf(item.members).s)
      && (|ops| > 2 ==> ops[2..] == BodyBlock(scr, BodyLines(scr, DescriptionOf(item.members).s)))
  {
  }
}
