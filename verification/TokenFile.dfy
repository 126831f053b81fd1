/** The two-line token file: SaveToPath's text, the daemon's LoadFromPath and the client's readToken. */
module TokenFile {
  import opened Optional
  import opened Text
  import opened TimeText
  import opened Tokens

  /** The text SaveToPath and writeTokenFile put in a file. */
  function Render(value: string, expires: string): string {
    value + "\n" + expires + "\n"
  }

  predicate Printable(instant: int, zone: int) {
    IsZone(zone) && LocalSeconds(instant, zone) >= 0
  }

  /** SaveToPath's text for a token, printed in the writer's zone. */
  function SavedText(t: Token, zone: int): string
    requires Printable(t.expires, zone)
  {
    Render(t.value, Format(t.expires, zone))
  }

  /** LoadFromPath on the contents of an existing file. */
  function Load(data: string): Option<Token> {
    match SplitFirst(TrimSpace(data), '\n')
    case Whole(_) => None
    case Two(value, expiry) =>
      match Parse(expiry)
      case None => None
      case Some(instant) => Some(Token(value, instant))
  }

  datatype Reading = Reading(value: string, valid: bool)

  /** readToken: None stands for a file that cannot be read. */
  function Read(data: Option<string>, now: int): Reading {
    if data.None? then Reading("", false)
    else
      match SplitFirst(TrimSpace(data.value), '\n')
      case Whole(value) => Reading(value, false)
      case Two(value, expiry) =>
        match Parse(expiry)
        case None => Reading(value, false)
        case Some(instant) => Reading(value, now < instant)
  }

  /** The client judges a file valid exactly when the daemon would load an unexpired token from it,
      and then both see the same value. */
  lemma ReadAgreesWithLoad(data: string, now: int)
    ensures Read(Some(data), now).valid <==> Load(data).Some? && Load(data).value.ValidAt(now)
    ensures Load(data).Some? ==> Read(Some(data), now).value == Load(data).value.value
  {}

  /** Values that survive a file: they do not start with white space and stay on one line. */
  predicate FitsOneLine(value: string) {
    value != "" && !IsSpace(value[0]) && '\n' !in value
  }

  /** Whatever is loaded has such a value. */
  lemma LoadedValueFits(data: string)
    requires Load(data).Some?
    ensures FitsOneLine(Load(data).value.value)
  {
    var t := TrimSpace(data);
    var i := Find(t, '\n');
    assert t[..i] == Load(data).value.value;
    if i == 0 {
      assert IsSpace(t[0]);
    }
  }

  lemma RenderedLinesRead(value: string, expires: string)
    requires FitsOneLine(value) && expires != "" && !IsSpace(expires[|expires| - 1])
    ensures SplitFirst(TrimSpace(Render(value, expires)), '\n') == Two(value, expires)
  {
    var body := value + ['\n'] + expires;
    assert Render(value, expires) == body + "\n";
    assert body[0] == value[0] && body[|body| - 1] == expires[|expires| - 1];
    assert "" + (body + "\n") == body + "\n";
    TrimKeepsBody("", body, "\n");
    SplitFirstAt(value, '\n', expires);
  }

  /** What either reader makes of two lines: the client always takes the first as the value and calls it
      valid only for a good, unexpired second; the daemon loads nothing without a good second line. */
  lemma TwoLinesAreRead(value: string, expires: string, now: int)
    requires FitsOneLine(value) && expires != "" && !IsSpace(expires[|expires| - 1])
    ensures Read(Some(Render(value, expires)), now)
         == Reading(value, Parse(expires).Some? && now < Parse(expires).value)
    ensures Load(Render(value, expires))
         == if Parse(expires).Some? then Some(Token(value, Parse(expires).value)) else None
  {
    RenderedLinesRead(value, expires);
  }

  /** One line, with any white space around it, is a value to the client, never valid, and no token to the
      daemon; a file that is missing or blank has no value. */
  lemma OneLineIsAValue(lead: string, value: string, tail: string, now: int)
    requires FitsOneLine(value) && !IsSpace(value[|value| - 1])
    requires (forall c <- lead :: IsSpace(c)) && (forall c <- tail :: IsSpace(c))
    ensures Read(Some(lead + (value + tail)), now) == Reading(value, false)
    ensures Load(lead + (value + tail)).None?
    ensures Read(None, now) == Reading("", false)
  {
    TrimKeepsBody(lead, value, tail);
  }

  /** Saving a token and loading it again gives the same value and the expiry cut to the second,
      whatever the zone, exactly when the value fits on one line and the expiry lies before the year
      10000 on the writer's clock. */
  lemma LoadUndoesSave(t: Token, zone: int)
    requires Printable(t.expires, zone)
    ensures Load(SavedText(t, zone)) == Some(t.Saved())
       <==> FitsOneLine(t.value) && HasFourDigitYear(t.expires, zone)
  {
    var data := SavedText(t, zone);
    ParseUndoesFormat(t.expires, zone);
    FormatEnds(t.expires, zone);
    if FitsOneLine(t.value) {
      RenderedLinesRead(t.value, Format(t.expires, zone));
    } else if Load(data).Some? {
      LoadedValueFits(data);
    }
  }

  lemma TruncateTwice(instant: int)
    ensures Truncate(Truncate(instant)) == Truncate(instant)
  {
    assert Truncate(instant) == instant / SECOND * SECOND;
  }

  predicate Reloadable(t: Token, zone: int) {
    Printable(t.expires, zone) && HasFourDigitYear(t.expires, zone)
  }

  /** Whatever was loaded from a file, by anyone's hand, saves and loads to the same token cut to the
      second, and a second cycle, even in another zone, changes nothing. */
  lemma SecondCycleChangesNothing(data: string, zone1: int, zone2: int)
    requires Load(data).Some? && Reloadable(Load(data).value, zone1) && Reloadable(Load(data).value.Saved(), zone2)
    ensures Load(SavedText(Load(data).value, zone1)) == Some(Load(data).value.Saved())
    ensures Load(SavedText(Load(data).value.Saved(), zone2)) == Some(Load(data).value.Saved())
  {
    var t := Load(data).value;
    LoadedValueFits(data);
    LoadUndoesSave(t, zone1);
    LoadUndoesSave(t.Saved(), zone2);
    TruncateTwice(t.expires);
  }

  /** The hexadecimal values generate() draws always fit. */
  predicate Hex(value: string) {
    value != "" && forall c <- value :: IsDigit(c) || 'a' <= c <= 'f'
  }

  lemma HexFits(value: string)
    requires Hex(value)
    ensures FitsOneLine(value)
  {
    assert value[0] in value;
  }
}
