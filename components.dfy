/**
 * The client's interface components (assets/classes/components.py): the attribute parsers used
 * when an interface is read from its description, the colour normalisation of text, the slot
 * index carried by an inventory button's action name, buttons that fire once per click, the
 * action buttons of the inventory panel (which ones show for a selected item and how they are
 * stacked in a column) and the interface manager's stack of overlays.
 */
module Components {
  import opened Common
  import opened PyText
  import Items

  // ---------------------------------------------------------------------------------------------
  // Textures

  /**
   * `parse_texture(v)`: no value, the empty string and any-case "none" give no texture; text that
   * `int` accepts gives that number; anything else gives no texture.
   */
  function ParseTexture(v: Option<string>): (r: Option<int>)
    ensures r.Some? ==> v.Some? && v.value != "" && Lower(v.value) != "none" && ParseInt(v.value) == r
  {
    match v
    case None => None
    case Some(s) => if s == "" || Lower(s) == "none" then None else ParseInt(s)
  }

  /** A texture written as an integer is that texture number. */
  lemma ParseTextureOfInt(n: int)
    ensures ParseTexture(Some(IntToDecimal(n))) == Some(n)
  {
    DecimalShape(n);
    SpellingIsLower(n);
    ParseIntRoundTrip(n);
  }

  /** A decimal spelling has no upper-case letter, so `lower` keeps it. */
  lemma SpellingIsLower(n: int)
    ensures Lower(IntToDecimal(n)) == IntToDecimal(n)
  {
    DecimalChars(n);
    LowerKeeps(IntToDecimal(n));
  }

  /** "none" in any case gives no texture. */
  lemma ParseTextureNone(s: string)
    requires Lower(s) == "none"
    ensures ParseTexture(Some(s)).None?
  {
  }

  // ---------------------------------------------------------------------------------------------
  // Colours

  /** An RGBA colour; the components are not clamped to 0-255. */
  datatype Rgba = Rgba(r: int, g: int, b: int, a: int)

  /** Opaque white, the fallback of every colour parse that fails. */
  const White := Rgba(255, 255, 255, 255)

  /** A colour as an interface attribute gives it: a list or tuple of integers, or text. */
  datatype ColorValue = Tuple(items: seq<int>) | Text(s: string)

  /** A list or tuple of three components gets alpha 255, one of four is kept, any other is white. */
  function TupleColor(t: seq<int>): (c: Rgba)
    ensures |t| == 3 ==> c == Rgba(t[0], t[1], t[2], 255)
    ensures |t| == 4 ==> c == Rgba(t[0], t[1], t[2], t[3])
    ensures |t| != 3 && |t| != 4 ==> c == White
  {
    if |t| == 3 then Rgba(t[0], t[1], t[2], 255)
    else if |t| == 4 then Rgba(t[0], t[1], t[2], t[3])
    else White
  }

  /** The value of a hexadecimal digit, either case. */
  function HexDigit(c: char): (d: Option<nat>)
    ensures d.Some? ==> d.value < 16
  {
    if '0' <= c <= '9' then Some((c as int) - ('0' as int))
    else if 'a' <= c <= 'f' then Some((c as int) - ('a' as int) + 10)
    else if 'A' <= c <= 'F' then Some((c as int) - ('A' as int) + 10)
    else None
  }

  /**
   * `int(p, 16)` on a two-character slice: surrounding whitespace is ignored and one sign may lead
   * a single digit. In two characters neither an underscore between digits nor a `0x` prefix
   * followed by a digit fits, so these are all the accepted forms.
   */
  function ParseHexPair(p: string): (r: Option<int>)
    requires |p| == 2
    ensures r.Some? ==> -15 <= r.value < 256
  {
    var t := Strip(p);
    if |t| == 2 then
      if HexDigit(t[0]).Some? && HexDigit(t[1]).Some? then Some(16 * HexDigit(t[0]).value + HexDigit(t[1]).value)
      else if (t[0] == '+' || t[0] == '-') && HexDigit(t[1]).Some? then
        var x: int := HexDigit(t[1]).value;
        Some(if t[0] == '-' then -x else x)
      else None
    else if |t| == 1 && HexDigit(t[0]).Some? then Some(HexDigit(t[0]).value)
    else None
  }

  /** The components of a colour written as hexadecimal pairs, or `None` when a pair is invalid. */
  function HexComponents(h: string): (r: Option<seq<int>>)
    requires |h| % 2 == 0
    ensures r.Some? ==> |r.value| == |h| / 2
    decreases |h|
  {
    if |h| == 0 then Some([])
    else
      match (ParseHexPair(h[..2]), HexComponents(h[2..]))
      case (Some(x), Some(rest)) => Some([x] + rest)
      case _ => None
  }

  /** The non-blank pieces of a comma-separated list, each stripped. */
  function NonBlank(parts: seq<string>): (r: seq<string>)
    ensures |r| <= |parts|
    ensures forall i :: 0 <= i < |r| ==> Strip(r[i]) == r[i] && r[i] != ""
  {
    if |parts| == 0 then []
    else
      var p := Strip(parts[0]);
      StripTwice(parts[0]);
      (if p != "" then [p] else []) + NonBlank(parts[1..])
  }

  /** Stripping is idempotent. */
  lemma StripTwice(s: string)
    ensures Strip(Strip(s)) == Strip(s)
  {
    var t := Strip(s);
    if |t| > 0 { StripKeeps(t); }
  }

  /** `list(map(int, parts))`: every piece as an integer, or `None` when one does not parse. */
  function ParseAll(parts: seq<string>): (r: Option<seq<int>>)
    ensures r.Some? ==> |r.value| == |parts|
    ensures r.Some? ==> forall i :: 0 <= i < |parts| ==> ParseInt(parts[i]) == Some(r.value[i])
  {
    if |parts| == 0 then Some([])
    else
      match (ParseInt(parts[0]), ParseAll(parts[1..]))
      case (Some(x), Some(rest)) => Some([x] + rest)
      case _ => None
  }

  /**
   * `parse_color(v)`: a list or tuple as `TupleColor`; text is stripped, then read as `#RRGGBB` or
   * `#RRGGBBAA` in hexadecimal (other lengths after `#` give white), or else as comma-separated
   * integers with blank pieces dropped, three or four of them. Every failure gives white.
   */
  function ParseColor(v: ColorValue): (c: Rgba)
    ensures v.Tuple? ==> c == TupleColor(v.items)
  {
    match v
    case Tuple(t) => TupleColor(t)
    case Text(text) =>
      var s := Strip(text);
      if |s| > 0 && s[0] == '#' then
        var h := s[1..];
        if |h| == 6 || |h| == 8 then
          match HexComponents(h)
          case Some(xs) => TupleColor(xs)
          case None => White
        else White
      else
        match ParseAll(NonBlank(Split(s, ',')))
        case Some(nums) => TupleColor(nums)
        case None => White
  }

  /** The lower-case hexadecimal digit of a value below 16. */
  function HexChar(d: nat): (c: char)
    requires d < 16
    ensures HexDigit(c) == Some(d)
    ensures !IsSpace(c) && c != '#' && c != '+' && c != '-'
  {
    if d < 10 then (('0' as int) + d) as char else (('a' as int) + d - 10) as char
  }

  /** The two-digit hexadecimal spelling of a byte. */
  function Hex2(n: nat): (p: string)
    requires n < 256
    ensures |p| == 2 && ParseHexPair(p) == Some(n)
    ensures forall i :: 0 <= i < |p| ==> !IsSpace(p[i]) && p[i] != '#'
  {
    var p := [HexChar(n / 16), HexChar(n % 16)];
    StripKeeps(p);
    p
  }

  /** The hexadecimal spelling of a sequence of bytes. */
  function HexOf(bytes: seq<nat>): (h: string)
    requires forall i :: 0 <= i < |bytes| ==> bytes[i] < 256
    ensures |h| == 2 * |bytes|
    ensures HexComponents(h) == Some(bytes)
    ensures forall i :: 0 <= i < |h| ==> !IsSpace(h[i]) && h[i] != '#'
  {
    if |bytes| == 0 then ""
    else
      var h := Hex2(bytes[0]) + HexOf(bytes[1..]);
      assert h[..2] == Hex2(bytes[0]) && h[2..] == HexOf(bytes[1..]);
      assert [bytes[0]] + bytes[1..] == bytes;
      h
  }

  /** `#RRGGBB` and `#RRGGBBAA` give the same colour as the tuple of their bytes. */
  lemma HexMatchesTuple(bytes: seq<nat>)
    requires |bytes| == 3 || |bytes| == 4
    requires forall i :: 0 <= i < |bytes| ==> bytes[i] < 256
    ensures ParseColor(Text("#" + HexOf(bytes))) == ParseColor(Tuple(bytes))
  {
    var h := HexOf(bytes);
    var s := "#" + h;
    assert s[|s| - 1] == h[|h| - 1];
    StripKeeps(s);
    assert s[1..] == h;
    assert ParseColor(Text(s)) == TupleColor(bytes);
  }

  /** A `#` followed by a number of characters other than six or eight is white. */
  lemma HexOtherLengthIsWhite(text: string)
    requires |Strip(text)| > 0 && Strip(text)[0] == '#' && |Strip(text)| != 7 && |Strip(text)| != 9
    ensures ParseColor(Text(text)) == White
  {
  }

  /** The comma-separated spelling of a sequence of integers. */
  function Csv(xs: seq<int>): (s: string)
    requires |xs| > 0
    ensures |s| > 0
    decreases |xs|
  {
    if |xs| == 1 then IntToDecimal(xs[0]) else IntToDecimal(xs[0]) + "," + Csv(xs[1..])
  }

  /** The decimal spelling of each integer. */
  function Spellings(xs: seq<int>): (ds: seq<string>)
    ensures |ds| == |xs|
    ensures forall i :: 0 <= i < |xs| ==> ds[i] == IntToDecimal(xs[i])
  {
    seq(|xs|, i requires 0 <= i < |xs| => IntToDecimal(xs[i]))
  }

  /** Splitting the spelling of a sequence on commas gives the spelling of each integer. */
  lemma {:induction false} SplitCsv(xs: seq<int>)
    requires |xs| > 0
    ensures Split(Csv(xs), ',') == Spellings(xs)
    ensures |Csv(xs)| > 0 && (IsDigit(Csv(xs)[0]) || Csv(xs)[0] == '-')
    ensures IsDigit(Csv(xs)[|Csv(xs)| - 1])
    decreases |xs|
  {
    DecimalShape(xs[0]);
    var d := IntToDecimal(xs[0]);
    SpellingsCons(xs);
    if |xs| == 1 {
      SplitWhole(d, ',');
      assert Spellings(xs[1..]) == [];
    } else {
      var rest := Csv(xs[1..]);
      SplitCsv(xs[1..]);
      var s := Csv(xs);
      assert s == d + [','] + rest;
      SplitFirst(d, ',', rest);
      assert s[0] == d[0];
      assert s[|s| - 1] == rest[|rest| - 1];
    }
  }

  /** The spellings of a non-empty sequence: the first one, then the rest. */
  lemma SpellingsCons(xs: seq<int>)
    requires |xs| > 0
    ensures Spellings(xs) == [IntToDecimal(xs[0])] + Spellings(xs[1..])
  {
    assert Spellings(xs)[1..] == Spellings(xs[1..]);
  }

  /** The spellings of integers are non-blank and parse back to the integers. */
  lemma {:induction false} ParseSpellings(xs: seq<int>)
    ensures NonBlank(Spellings(xs)) ==
      Spellings(xs)
    ensures ParseAll(Spellings(xs)) == Some(xs)
    decreases |xs|
  {
    if |xs| > 0 {
      ParseSpellings(xs[1..]);
      SpellingsCons(xs);
      DecimalShape(xs[0]);
      ParseIntRoundTrip(xs[0]);
      assert [xs[0]] + xs[1..] == xs;
    }
  }

  /**
   * `r,g,b` and `r,g,b,a` give the same colour as the tuple of their integers, whatever their
   * size: nothing is clamped to 0-255.
   */
  lemma CsvMatchesTuple(xs: seq<int>)
    requires |xs| == 3 || |xs| == 4
    ensures ParseColor(Text(Csv(xs))) == ParseColor(Tuple(xs))
  {
    var s := Csv(xs);
    SplitCsv(xs);
    ParseSpellings(xs);
    StripKeeps(s);
    CsvColor(s, xs);
  }

  /** Stripped text not starting with `#` whose comma-separated pieces parse is a tuple colour. */
  lemma CsvColor(s: string, xs: seq<int>)
    requires |s| > 0 && Strip(s) == s && s[0] != '#' && ParseAll(NonBlank(Split(s, ','))) == Some(xs)
    ensures ParseColor(Text(s)) == TupleColor(xs)
  {
  }

  /**
   * `Text` normalises its colour as `parse_color` does a list or tuple; any other kind of value
   * (`None` here) gives white.
   */
  function TextColor(color: Option<seq<int>>): (c: Rgba)
    ensures color.Some? ==> c == ParseColor(Tuple(color.value))
    ensures color.None? ==> c == White
  {
    match color
    case Some(t) => TupleColor(t)
    case None => White
  }

  // ---------------------------------------------------------------------------------------------
  // Coordinates

  /** A coordinate attribute: a number, or text. */
  datatype Coordinate = Number(x: real) | Words(s: string)

  /**
   * `parse_coordinate(v, screen, elem)`: a number is truncated; text is stripped and folded to
   * lower case, then "center" centres the element, "left"/"top" give 0, "right"/"bottom" put it
   * flush with the far edge, `p%` takes that share of the room left by the element, and other
   * text is read as a float and truncated. Text that does not parse gives 0.
   */
  function ParseCoordinate(v: Coordinate, screen: int, elem: int): (n: int)
    ensures v.Number? ==> (v.x >= 0.0 ==> 0.0 <= n as real <= v.x) && (v.x < 0.0 ==> v.x <= n as real <= 0.0)
    ensures v.Words? && Lower(Strip(v.s)) in {"left", "top"} ==> n == 0
    ensures v.Words? && Lower(Strip(v.s)) in {"right", "bottom"} ==> n + elem == screen
    ensures v.Words? ==> var t := Lower(Strip(v.s));
      t !in {"center", "left", "top", "right", "bottom"} && !EndsWith(t, "%") && ParseDecimal(t).None? ==> n == 0
  {
    match v
    case Number(x) => Trunc(x)
    case Words(text) =>
      var s := Lower(Strip(text));
      if s == "center" then Trunc((screen - elem) as real / 2.0)
      else if s == "left" || s == "top" then 0
      else if s == "right" || s == "bottom" then screen - elem
      else if EndsWith(s, "%") then
        match ParseDecimal(s[..|s| - 1])
        case Some(x) => Percent(x, screen, elem)
        case None => 0
      else
        match ParseDecimal(s)
        case Some(x) => Trunc(x)
        case None => 0
  }

  /** `int(screen * (x / 100) - elem * (x / 100))`: the share `x` percent of the screen less the element. */
  function Percent(x: real, screen: int, elem: int): int {
    Trunc(screen as real * (x / 100.0) - elem as real * (x / 100.0))
  }

  /** "right" and "bottom" put the far side of the element on the far edge of the screen. */
  lemma FarEdgeFlush(text: string, screen: int, elem: int)
    requires Lower(Strip(text)) == "right" || Lower(Strip(text)) == "bottom"
    ensures ParseCoordinate(Words(text), screen, elem) + elem == screen
  {
  }

  /** "center" leaves equal room on both sides, up to the one pixel lost by truncation. */
  lemma CenterBalanced(text: string, screen: int, elem: int)
    requires Lower(Strip(text)) == "center"
    ensures var c := ParseCoordinate(Words(text), screen, elem);
      -1 <= (screen - elem - c) - c <= 1
  {
  }

  /** A coordinate written as an integer is that integer. */
  lemma CoordinateOfInt(n: int, screen: int, elem: int)
    ensures ParseCoordinate(Words(IntToDecimal(n)), screen, elem) == n
  {
    var s := IntToDecimal(n);
    DecimalChars(n);
    DecimalHasNoSpace(n);
    LowerKeeps(s);
    assert Lower(Strip(s)) == s;
    assert s != "center" && s != "left" && s != "top" && s != "right" && s != "bottom" by {
      assert s[0] != 'c' && s[0] != 'l' && s[0] != 't' && s[0] != 'r' && s[0] != 'b';
    }
    assert !EndsWith(s, "%") by {
      assert s[|s| - 1] != '%';
      assert |s| >= 1 ==> s[|s| - 1..][0] == s[|s| - 1];
    }
    ParseDecimalOfInt(n);
    assert ParseDecimal(s) == Some(n as real);
  }

  /** A whole percentage from 0 to 100 keeps the element inside the screen. */
  lemma PercentInside(p: nat, screen: int, elem: int)
    requires p <= 100 && elem <= screen
    ensures var c := ParseCoordinate(Words(NatToDecimal(p) + "%"), screen, elem);
      0 <= c <= screen - elem
  {
    var d := NatToDecimal(p);
    var s := d + "%";
    StripKeeps(s);
    LowerKeeps(s);
    assert Lower(Strip(s)) == s;
    assert s != "center" && s != "left" && s != "top" && s != "right" && s != "bottom" by {
      assert IsDigit(s[0]);
    }
    assert EndsWith(s, "%") by { assert s[|s| - 1..] == "%"; }
    assert s[..|s| - 1] == d;
    ParseDecimalOfInt(p);
    assert IntToDecimal(p) == d;
    assert ParseDecimal(s[..|s| - 1]) == Some(p as real);
    assert ParseCoordinate(Words(s), screen, elem) == Percent(p as real, screen, elem);
    ShareOfRoom(p as real, screen, elem);
  }

  /** A share from 0 to 100 percent of the room left by the element truncates to within that room. */
  lemma ShareOfRoom(p: real, screen: int, elem: int)
    requires 0.0 <= p <= 100.0 && elem <= screen
    ensures 0 <= Percent(p, screen, elem) <= screen - elem
  {
    var q := p / 100.0;
    var room := (screen - elem) as real;
    var x := screen as real * q - elem as real * q;
    assert x == room * q;
    assert x <= room by {
      assert room - room * q == room * (1.0 - q);
      assert room >= 0.0 && 1.0 - q >= 0.0;
    }
    assert 0.0 <= x by {
      assert room >= 0.0 && q >= 0.0;
      assert room * q >= 0.0 * q;
    }
    assert Trunc(x) as real <= room;
  }

  // ---------------------------------------------------------------------------------------------
  // Inventory slot buttons

  /**
   * The slot index of a button whose action is named `slot_<n>`: every `slot_` in the name is
   * deleted, the rest is read with `int` and made zero-based; a name that does not start with
   * `slot_`, or whose rest is not an integer, gives no slot.
   */
  function SlotId(actionName: string): (slot: Option<int>)
    ensures slot.Some? ==> StartsWith(actionName, "slot_")
  {
    if StartsWith(actionName, "slot_") then
      match ParseInt(ReplaceAll(actionName, "slot_"))
      case Some(n) => Some(n - 1)
      case None => None
    else None
  }

  /** `slot_<n>` is the button of the zero-based slot `n - 1`. */
  lemma SlotIdOfInt(n: int)
    ensures SlotId("slot_" + IntToDecimal(n)) == Some(n - 1)
  {
    var d := IntToDecimal(n);
    DecimalChars(n);
    assert ("slot_" + d)[..5] == "slot_";
    ReplaceLeading("slot_", d);
    AbsentByFirstChar(d, "slot_");
    ReplaceAbsent(d, "slot_");
    ParseIntRoundTrip(n);
  }

  // ---------------------------------------------------------------------------------------------
  // Buttons

  /** What one `isPressed` call does: the new `pressed` flag, whether the action runs, the result. */
  datatype Click = Click(pressed: bool, fired: bool, hit: bool)

  /**
   * `isPressed` on a button in state `pressed`, with the mouse `over` it or not and the button
   * held (`press`) or not: a hidden button is released and reports nothing; a press over it is a
   * hit and runs a callable action only when the button was not already pressed; releasing the
   * mouse anywhere releases the button; a press elsewhere keeps the flag as it was.
   */
  function ClickOn(visible: bool, pressed: bool, over: bool, press: bool, callable: bool): (c: Click)
    ensures c.hit <==> visible && over && press
    ensures c.fired <==> callable && c.hit && !pressed
    ensures !visible ==> !c.pressed
    ensures visible && !press ==> !c.pressed
  {
    if !visible then Click(false, false, false)
    else if over && press then Click(true, callable && !pressed, true)
    else if !press then Click(false, false, false)
    else Click(pressed, false, false)
  }

  /** One frame of mouse input as a button sees it. */
  datatype Frame = Frame(over: bool, press: bool)

  /** The `pressed` flag after a run of frames and how many times the action ran. */
  function Clicks(visible: bool, pressed: bool, callable: bool, frames: seq<Frame>): (r: (bool, nat))
    ensures !visible ==> r.1 == 0
    decreases |frames|
  {
    if |frames| == 0 then (pressed, 0)
    else
      var c := ClickOn(visible, pressed, frames[0].over, frames[0].press, callable);
      var rest := Clicks(visible, c.pressed, callable, frames[1..]);
      (rest.0, rest.1 + if c.fired then 1 else 0)
  }

  /** Every frame of the run holds the mouse pressed over the button. */
  predicate HeldOver(frames: seq<Frame>) {
    forall i :: 0 <= i < |frames| ==> frames[i] == Frame(true, true)
  }

  /** While the mouse stays pressed over a button that is already pressed, the action never runs. */
  lemma {:induction false} HeldStaysQuiet(visible: bool, callable: bool, frames: seq<Frame>)
    requires visible && HeldOver(frames)
    ensures Clicks(visible, true, callable, frames) == (true, 0)
    decreases |frames|
  {
    if |frames| > 0 {
      HeldStaysQuiet(visible, callable, frames[1..]);
    }
  }

  /** Holding the mouse over a released visible button for any number of frames runs the action once. */
  lemma HeldFiresOnce(callable: bool, frames: seq<Frame>)
    requires |frames| > 0 && HeldOver(frames)
    ensures Clicks(true, false, callable, frames) == (true, if callable then 1 else 0)
  {
    HeldStaysQuiet(true, callable, frames[1..]);
  }

  /** Releasing the mouse re-arms the button: press, release, press runs the action twice. */
  lemma ReleaseRearms(over: bool)
    ensures Clicks(true, false, true, [Frame(true, true), Frame(over, false), Frame(true, true)]).1 == 2
  {
    var fs := [Frame(true, true), Frame(over, false), Frame(true, true)];
    assert fs[1..] == [Frame(over, false), Frame(true, true)];
    assert fs[1..][1..] == [Frame(true, true)];
    assert Clicks(true, false, true, fs[1..][1..]).1 == 1;
    assert Clicks(true, true, true, fs[1..]).1 == 1;
  }

  /** A clickable button of fixed absolute position and size. */
  class Button {
    /** The position `get_absolute_position()` gives; the parents' offsets are folded in. */
    const absX: int
    const absY: int
    const sizeX: int
    const sizeY: int
    /** Whether `action` is callable. */
    const callable: bool
    var visible: bool
    var pressed: bool
    /** How often the action has run, standing for the action's own effect. */
    var actionRuns: nat

    /** A shown, released button whose action has not run. */
    constructor (absX: int, absY: int, sizeX: int, sizeY: int, callable: bool)
      ensures this.absX == absX && this.absY == absY && this.sizeX == sizeX && this.sizeY == sizeY
      ensures this.callable == callable && visible && !pressed && actionRuns == 0
    {
      this.absX, this.absY, this.sizeX, this.sizeY := absX, absY, sizeX, sizeY;
      this.callable := callable;
      visible, pressed, actionRuns := true, false, 0;
    }

    /** The mouse is over the button, the edges included. */
    predicate Over(mx: int, my: int) {
      absX <= mx <= absX + sizeX && absY <= my <= absY + sizeY
    }

    /** `isPressed(mx, my, press)`. */
    method IsPressed(mx: int, my: int, press: bool) returns (hit: bool)
      modifies this`pressed, this`actionRuns
      ensures var c := ClickOn(visible, old(pressed), Over(mx, my), press, callable);
        pressed == c.pressed && hit == c.hit && actionRuns == old(actionRuns) + (if c.fired then 1 else 0)
    {
      if !visible {
        pressed := false;
        return false;
      }
      var over := absX <= mx <= absX + sizeX && absY <= my <= absY + sizeY;
      if over && press {
        if !pressed {
          if callable {
            actionRuns := actionRuns + 1;
          }
          pressed := true;
        }
      } else if !press {
        pressed := false;
      }
      hit := over && press;
    }
  }

  // ---------------------------------------------------------------------------------------------
  // The inventory panel's action buttons

  /** Which of the drop, equip, unequip and use buttons are shown. */
  datatype Shown = Shown(drop: bool, equip: bool, unequip: bool, use: bool)

  /**
   * The visibility rule of `set_selected_item(item, source)`: nothing without an item; drop and
   * unequip for an item picked from an equipment slot; otherwise drop plus equip for a weapon or
   * equipment, drop plus use for a key item or consumable, and drop alone for any other item.
   */
  function ActionsFor(item: Option<Items.Item>, source: Option<string>): (v: Shown)
    ensures v.drop <==> item.Some?
    ensures v.unequip <==> item.Some? && source == Some("equipment")
    ensures v.equip <==> (item.Some? && source != Some("equipment") &&
      (item.value.details.Weapon? || item.value.details.Equipment?))
    ensures v.use <==> (item.Some? && source != Some("equipment") &&
      (item.value.details.KeyItem? || item.value.details.Consumable?))
    ensures (if v.equip then 1 else 0) + (if v.unequip then 1 else 0) + (if v.use then 1 else 0) <= 1
  {
    match item
    case None => Shown(false, false, false, false)
    case Some(it) =>
      if source == Some("equipment") then Shown(true, false, true, false)
      else if it.details.Weapon? || it.details.Equipment? then Shown(true, true, false, false)
      else if it.details.KeyItem? || it.details.Consumable? then Shown(true, false, false, true)
      else Shown(true, false, false, false)
  }

  /** What the column layout reads and writes of one action button. */
  datatype Slot = Slot(x: int, y: int, sizeY: int, visible: bool, parent: nat)

  /** The gap the column leaves between two buttons. */
  const Spacing := 8

  /** The height taken by the shown buttons before index `n`, each with its gap. */
  function Above(ss: seq<Slot>, n: nat): (h: int)
    requires n <= |ss|
  {
    if n == 0 then 0 else Above(ss, n - 1) + (if ss[n - 1].visible then ss[n - 1].sizeY + Spacing else 0)
  }

  /** Some button is shown. */
  predicate AnyShown(ss: seq<Slot>) {
    exists i :: 0 <= i < |ss| && ss[i].visible
  }

  /** The index of the first shown button at or after `k`. */
  function FirstShown(ss: seq<Slot>, k: nat): (i: nat)
    requires k <= |ss|
    ensures k <= i <= |ss|
    ensures i < |ss| ==> ss[i].visible
    ensures forall j :: k <= j < i ==> !ss[j].visible
    decreases |ss| - k
  {
    if k == |ss| || ss[k].visible then k else FirstShown(ss, k + 1)
  }

  /** The least `x` among `seed` and the buttons before `n` under the parent `par`. */
  function MinX(ss: seq<Slot>, par: nat, n: nat, seed: int): (m: int)
    requires n <= |ss|
    ensures m <= seed && forall j :: 0 <= j < n && ss[j].parent == par ==> m <= ss[j].x
  {
    if n == 0 then seed
    else
      var m := MinX(ss, par, n - 1, seed);
      if ss[n - 1].parent == par && ss[n - 1].x < m then ss[n - 1].x else m
  }

  /** The least `y` among `seed` and the buttons before `n` under the parent `par`. */
  function MinY(ss: seq<Slot>, par: nat, n: nat, seed: int): (m: int)
    requires n <= |ss|
    ensures m <= seed && forall j :: 0 <= j < n && ss[j].parent == par ==> m <= ss[j].y
  {
    if n == 0 then seed
    else
      var m := MinY(ss, par, n - 1, seed);
      if ss[n - 1].parent == par && ss[n - 1].y < m then ss[n - 1].y else m
  }

  /** The `index`-th button after the layout that starts the column at (`colX`, `startY`). */
  function PlacedAt(ss: seq<Slot>, colX: int, startY: int, index: nat): (s: Slot)
    requires index < |ss|
  {
    if ss[index].visible then ss[index].(x := colX, y := startY + Above(ss, index)) else ss[index]
  }

  /**
   * `_layout_action_buttons_column()` over the buttons in the order drop, use, equip, unequip:
   * with none shown nothing moves; otherwise the column starts at the least `x` and the least `y`
   * among the buttons sharing the first shown button's parent, and the shown buttons are stacked
   * down it in order, each `sizeY + 8` below the previous; hidden buttons stay where they are.
   */
  function Layout(ss: seq<Slot>): (r: seq<Slot>)
    ensures |r| == |ss|
  {
    var k := FirstShown(ss, 0);
    if k == |ss| then ss
    else
      var par := ss[k].parent;
      Placed(ss, MinX(ss, par, |ss|, ss[k].x), MinY(ss, par, |ss|, ss[k].y))
  }

  /** Every button after the layout that starts the column at (`colX`, `startY`). */
  function Placed(ss: seq<Slot>, colX: int, startY: int): (r: seq<Slot>)
    ensures |r| == |ss|
    ensures forall i :: 0 <= i < |ss| ==> r[i] == PlacedAt(ss, colX, startY, i)
  {
    seq(|ss|, i requires 0 <= i < |ss| => PlacedAt(ss, colX, startY, i))
  }

  /** The layout never hides, shows, resizes or re-parents a button, and leaves hidden ones alone. */
  lemma LayoutKeeps(ss: seq<Slot>, i: nat)
    requires i < |ss|
    ensures Layout(ss)[i].visible == ss[i].visible && Layout(ss)[i].sizeY == ss[i].sizeY
    ensures Layout(ss)[i].parent == ss[i].parent
    ensures !ss[i].visible ==> Layout(ss)[i] == ss[i]
  {
  }

  /** Shown buttons share one column, at the left edge of their parent's buttons. */
  lemma LayoutColumn(ss: seq<Slot>, i: nat, j: nat)
    requires i < |ss| && j < |ss| && ss[i].visible && ss[j].visible
    ensures Layout(ss)[i].x == Layout(ss)[j].x
    ensures var k := FirstShown(ss, 0);
      forall b :: 0 <= b < |ss| && ss[b].parent == ss[k].parent ==> Layout(ss)[i].x <= ss[b].x
  {
  }

  /** The first shown button sits at the top of the column. */
  lemma LayoutTop(ss: seq<Slot>)
    requires AnyShown(ss)
    ensures var k := FirstShown(ss, 0);
      Layout(ss)[k].y == MinY(ss, ss[k].parent, |ss|, ss[k].y)
  {
    var k := FirstShown(ss, 0);
    AboveNothing(ss, k);
  }

  /** No height is taken before the first shown button. */
  lemma {:induction false} AboveNothing(ss: seq<Slot>, n: nat)
    requires n <= |ss| && forall j :: 0 <= j < n ==> !ss[j].visible
    ensures Above(ss, n) == 0
  {
    if n > 0 { AboveNothing(ss, n - 1); }
  }

  /** Hidden buttons between two indices take no height. */
  lemma {:induction false} AboveSkips(ss: seq<Slot>, i: nat, j: nat)
    requires i <= j <= |ss| && forall b :: i <= b < j ==> !ss[b].visible
    ensures Above(ss, j) == Above(ss, i)
    decreases j - i
  {
    if j > i { AboveSkips(ss, i, j - 1); }
  }

  /**
   * Each shown button sits exactly `sizeY + 8` below the previous shown one: the column has no
   * overlap and an 8-pixel gap.
   */
  lemma LayoutStacked(ss: seq<Slot>, i: nat, j: nat)
    requires i < j < |ss| && ss[i].visible && ss[j].visible
    requires forall b :: i < b < j ==> !ss[b].visible
    ensures Layout(ss)[j].y == Layout(ss)[i].y + ss[i].sizeY + Spacing
  {
    AboveSkips(ss, i + 1, j);
  }

  /** An action button of the inventory panel. */
  class ActionButton {
    var x: int
    var y: int
    const sizeY: int
    var visible: bool
    /** The identity of the parent element (`0` for none). */
    const parent: nat

    constructor (x: int, y: int, sizeY: int, parent: nat)
      ensures this.x == x && this.y == y && this.sizeY == sizeY && this.parent == parent && visible
    {
      this.x, this.y, this.sizeY, this.parent := x, y, sizeY, parent;
      visible := true;
    }

    /** What the layout reads and writes of this button. */
    function View(): Slot
      reads this
    {
      Slot(x, y, sizeY, visible, parent)
    }
  }

  /** The layout view of a sequence of buttons. */
  function Views(bs: seq<ActionButton>): (vs: seq<Slot>)
    reads set i | 0 <= i < |bs| :: bs[i]
    ensures |vs| == |bs|
    ensures forall i :: 0 <= i < |bs| ==> vs[i] == bs[i].View()
  {
    if |bs| == 0 then [] else Views(bs[..|bs| - 1]) + [bs[|bs| - 1].View()]
  }

  /** No button appears twice. */
  predicate Distinct(bs: seq<ActionButton>) {
    forall i, j :: 0 <= i < j < |bs| ==> bs[i] != bs[j]
  }

  /** The least x and y of the buttons under the parent `par`, seeded with button `k`. */
  method ColumnCorner(bs: seq<ActionButton>, k: nat, par: nat) returns (colX: int, startY: int)
    requires k < |bs|
    ensures colX == MinX(Views(bs), par, |bs|, bs[k].x)
    ensures startY == MinY(Views(bs), par, |bs|, bs[k].y)
  {
    ghost var vs := Views(bs);
    colX, startY := bs[k].x, bs[k].y;
    var i := 0;
    while i < |bs|
      invariant 0 <= i <= |bs|
      invariant colX == MinX(vs, par, i, bs[k].x)
      invariant startY == MinY(vs, par, i, bs[k].y)
    {
      assert vs[i] == bs[i].View();
      if bs[i].parent == par && bs[i].x < colX {
        colX := bs[i].x;
      }
      if bs[i].parent == par && bs[i].y < startY {
        startY := bs[i].y;
      }
      i := i + 1;
    }
  }

  /** The first shown button at or after `k`, or `|bs|`. */
  method FindShown(bs: seq<ActionButton>) returns (k: nat)
    ensures k == FirstShown(Views(bs), 0)
  {
    ghost var vs := Views(bs);
    k := 0;
    while k < |bs| && !bs[k].visible
      invariant k <= |bs|
      invariant FirstShown(vs, 0) == FirstShown(vs, k)
      decreases |bs| - k
    {
      k := k + 1;
    }
  }

  /** `_layout_action_buttons_column()` on the buttons in the order drop, use, equip, unequip. */
  method LayoutButtons(bs: seq<ActionButton>)
    requires Distinct(bs)
    modifies set i | 0 <= i < |bs| :: bs[i]
    ensures Views(bs) == Layout(old(Views(bs)))
  {
    ghost var vs := Views(bs);
    var k := FindShown(bs);
    if k == |bs| {
      return;
    }
    var colX, startY := ColumnCorner(bs, k, bs[k].parent);
    assert vs[k].parent == bs[k].parent && vs[k].x == bs[k].x && vs[k].y == bs[k].y;
    assert Layout(vs) == Placed(vs, colX, startY);
    StackColumn(bs, colX, startY);
  }

  /** The loop of the layout: the shown buttons are moved into the column from (`colX`, `startY`). */
  method StackColumn(bs: seq<ActionButton>, colX: int, startY: int)
    requires Distinct(bs)
    modifies set i | 0 <= i < |bs| :: bs[i]
    ensures Views(bs) == Placed(old(Views(bs)), colX, startY)
  {
    ghost var vs := Views(bs);
    var y := startY;
    var i := 0;
    while i < |bs|
      invariant 0 <= i <= |bs|
      invariant y == startY + Above(vs, i)
      invariant forall j :: 0 <= j < i ==> bs[j].View() == PlacedAt(vs, colX, startY, j)
      invariant forall j :: i <= j < |bs| ==> bs[j].View() == vs[j]
    {
      if bs[i].visible {
        bs[i].x, bs[i].y := colX, y;
        y := y + bs[i].sizeY + Spacing;
      }
      assert bs[i].View() == PlacedAt(vs, colX, startY, i);
      i := i + 1;
    }
    assert forall j :: 0 <= j < |bs| ==> Views(bs)[j] == Placed(vs, colX, startY)[j];
  }

  /**
   * The visibility the four button groups get: in `bs`, laid out in the order drop, use, equip,
   * unequip, the first `nd` buttons drop, the next `nu` use, the next `ne` equip, the rest unequip.
   */
  function Revealed(ss: seq<Slot>, nd: nat, nu: nat, ne: nat, v: Shown): (r: seq<Slot>)
    ensures |r| == |ss|
  {
    seq(|ss|, i requires 0 <= i < |ss| =>
      ss[i].(visible := if i < nd then v.drop else if i < nd + nu then v.use
                        else if i < nd + nu + ne then v.equip else v.unequip))
  }

  /**
   * `set_selected_item(item, source)`: each group of action buttons is shown or hidden by
   * `ActionsFor`, then the column is laid out again. The groups are disjoint, so the order in
   * which they are set does not matter.
   */
  method SelectItem(bs: seq<ActionButton>, nd: nat, nu: nat, ne: nat,
                    item: Option<Items.Item>, source: Option<string>)
    requires Distinct(bs) && nd + nu + ne <= |bs|
    modifies set i | 0 <= i < |bs| :: bs[i]
    ensures Views(bs) == Layout(Revealed(old(Views(bs)), nd, nu, ne, ActionsFor(item, source)))
  {
    ghost var vs := Views(bs);
    var v := ActionsFor(item, source);
    var i := 0;
    while i < |bs|
      invariant 0 <= i <= |bs|
      invariant forall j :: 0 <= j < i ==> bs[j].View() == Revealed(vs, nd, nu, ne, v)[j]
      invariant forall j :: i <= j < |bs| ==> bs[j].View() == vs[j]
    {
      bs[i].visible := if i < nd then v.drop else if i < nd + nu then v.use
                       else if i < nd + nu + ne then v.equip else v.unequip;
      i := i + 1;
    }
    assert Views(bs) == Revealed(vs, nd, nu, ne, v);
    LayoutButtons(bs);
  }

  // ---------------------------------------------------------------------------------------------
  // The interface manager

  /** The interface shown and the overlaid interfaces beneath it, the most recent last. */
  datatype UiState = UiState(current: Option<string>, stack: seq<string>)

  /** Python's truth value of the current interface's name. */
  predicate Showing(s: UiState) {
    s.current.Some? && s.current.value != ""
  }

  /**
   * `show_interface(name, overlay)` among the registered `interfaces`: an unknown name fails and
   * changes nothing; an overlay pushes the interface being shown (if any), otherwise the stack is
   * emptied; then `name` is current.
   */
  function Show(s: UiState, interfaces: set<string>, name: string, overlay: bool): (r: (UiState, bool))
    ensures r.1 <==> name in interfaces
    ensures !r.1 ==> r.0 == s
    ensures r.1 ==> r.0.current == Some(name)
    ensures r.1 && !overlay ==> r.0.stack == []
    ensures r.1 && overlay ==> r.0.stack == s.stack + (if Showing(s) then [s.current.value] else [])
  {
    if name !in interfaces then (s, false)
    else if overlay then (UiState(Some(name), s.stack + (if Showing(s) then [s.current.value] else [])), true)
    else (UiState(Some(name), []), true)
  }

  /** `hide_current_interface()`: the most recent overlaid interface returns, or none is shown. */
  function Hide(s: UiState): (r: UiState)
    ensures |s.stack| > 0 ==> r == UiState(Some(s.stack[|s.stack| - 1]), s.stack[..|s.stack| - 1])
    ensures |s.stack| == 0 ==> r == UiState(None, [])
  {
    if |s.stack| > 0 then UiState(Some(s.stack[|s.stack| - 1]), s.stack[..|s.stack| - 1])
    else UiState(None, [])
  }

  /** Showing an overlay over a shown interface and hiding it again restores the previous state. */
  lemma OverlayThenHide(s: UiState, interfaces: set<string>, name: string)
    requires name in interfaces && Showing(s)
    ensures Hide(Show(s, interfaces, name, true).0) == s
  {
    var t := Show(s, interfaces, name, true).0;
    assert t.stack[..|t.stack| - 1] == s.stack;
  }

  /** After a main (non-overlay) interface is shown, hiding it leaves nothing shown. */
  lemma MainThenHide(s: UiState, interfaces: set<string>, name: string)
    requires name in interfaces
    ensures Hide(Show(s, interfaces, name, false).0) == UiState(None, [])
  {
  }

  /** The registered interfaces and the manager's overlay stack. */
  class InterfaceManager {
    const interfaces: set<string>
    var current: Option<string>
    var stack: seq<string>

    /** A manager with nothing shown. */
    constructor (interfaces: set<string>)
      ensures this.interfaces == interfaces && State() == UiState(None, [])
    {
      this.interfaces := interfaces;
      current, stack := None, [];
    }

    /** The manager's state as a value. */
    function State(): UiState
      reads this
    {
      UiState(current, stack)
    }

    /** `show_interface(name, overlay)`. */
    method ShowInterface(name: string, overlay: bool) returns (ok: bool)
      modifies this
      ensures State() == Show(old(State()), interfaces, name, overlay).0
      ensures ok == Show(old(State()), interfaces, name, overlay).1
    {
      if name !in interfaces {
        return false;
      }
      if overlay {
        if current.Some? && current.value != "" {
          stack := stack + [current.value];
        }
      } else {
        stack := [];
      }
      current := Some(name);
      ok := true;
    }

    /** `hide_current_interface()`. */
    method HideCurrentInterface()
      modifies this
      ensures State() == Hide(old(State()))
    {
      if |stack| > 0 {
        current := Some(stack[|stack| - 1]);
        stack := stack[..|stack| - 1];
      } else {
        current := None;
      }
    }
  }
}
