/** SerialReader: polls one line from the serial port each frame, parses it
    as an integer, and maps the raw ADC reading onto [0,1] through a deadband. */
module Serial {
  import opened Unity
  import opened Text

  /** The ADC's largest reading (`maxValue`). */
  const MaxValue: int := 4095

  /** What one `serialPort.ReadLine()` delivers: a line, or a read timeout. */
  datatype ReadResult = Line(text: string) | Timeout

  /** `int.TryParse(line.Trim(), out temp)`. */
  function ParseLine(line: string): Option<int>
  {
    TryParseInt32(Trim(line))
  }

  /** The deadband and rescale: readings below `threshold` give 0, readings
      above it are scaled linearly so that `MaxValue` gives 1, then clamped. */
  function MapRaw(threshold: int, rawValue: int): real
    requires 0 <= threshold <= Int32Max && threshold != MaxValue
  {
    if rawValue < threshold then 0.0
    else Clamp01((rawValue - threshold) as real / (MaxValue - threshold) as real)
  }

  /** The mapped value is in [0,1]; at or below the threshold it is 0; with the
      threshold below the ADC maximum, the maximum and above give 1. */
  lemma MapRawShape(threshold: int, rawValue: int)
    requires 0 <= threshold <= Int32Max && threshold != MaxValue
    ensures 0.0 <= MapRaw(threshold, rawValue) <= 1.0
    ensures rawValue <= threshold ==> MapRaw(threshold, rawValue) == 0.0
    ensures threshold < MaxValue <= rawValue ==> MapRaw(threshold, rawValue) == 1.0
  {
    if threshold < MaxValue <= rawValue {
      var d := (MaxValue - threshold) as real;
      assert (rawValue - threshold) as real >= d;
      assert (rawValue - threshold) as real / d >= 1.0 by {
        QuotientAtLeastOne((rawValue - threshold) as real, d);
      }
    }
  }

  lemma QuotientAtLeastOne(a: real, d: real)
    requires d > 0.0 && a >= d
    ensures a / d >= 1.0
  {
    assert a / d * d == a;
  }

  lemma QuotientMonotone(a: real, b: real, d: real)
    requires a <= b && d != 0.0
    ensures d > 0.0 ==> a / d <= b / d
    ensures d < 0.0 ==> a / d >= b / d
  {
    assert a / d * d == a && b / d * d == b;
    assert (b / d - a / d) * d == b - a;
  }

  /** The map is monotone: a larger reading never gives a smaller value. */
  lemma MapRawMonotone(threshold: int, r1: int, r2: int)
    requires 0 <= threshold <= Int32Max && threshold != MaxValue
    requires r1 <= r2
    ensures MapRaw(threshold, r1) <= MapRaw(threshold, r2)
  {
    MapRawShape(threshold, r2);
    if r1 >= threshold {
      QuotientMonotone((r1 - threshold) as real, (r2 - threshold) as real, (MaxValue - threshold) as real);
    }
  }

  /** A reading framed by white space (for instance the `\r` of a CRLF line
      ending) still parses. */
  lemma ParseLineIgnoresSurroundingWhiteSpace(p: string, n: int, q: string)
    requires AllWhiteSpace(p) && AllWhiteSpace(q)
    requires Int32Min <= n <= Int32Max
    ensures ParseLine(p + FormatInt(n) + q) == Some(n)
  {
    TrimSurrounded(p, FormatInt(n), q);
    ParseFormatRoundTrip(n);
  }

  class SerialReader {
    /** Readings below this are treated as 0 (an Inspector field). */
    const threshold: int
    /** `serialPort != null && serialPort.IsOpen`. */
    var portOpen: bool
    /** `Behaviour.enabled`, read by CameraController. */
    var enabled: bool
    var rawValue: int
    var value: real
    var log: seq<string>

    ghost predicate Valid()
      reads this
    {
      0 <= threshold <= Int32Max && threshold != MaxValue
    }

    /** The field initialisers and `Start()`: the port is created and opened;
        `opens` says whether `Open()` succeeded (on failure the exception is
        caught and logged, and the port stays closed). */
    constructor (threshold: int, opens: bool)
      requires 0 <= threshold <= Int32Max && threshold != MaxValue
      ensures Valid() && this.threshold == threshold
      ensures portOpen == opens && enabled && rawValue == 0 && value == 0.0
      ensures log == [if opens then "Serial port opened" else "Cannot open serial port"]
    {
      this.threshold := threshold;
      portOpen := opens;
      enabled := true;
      rawValue := 0;
      value := 0.0;
      log := [if opens then "Serial port opened" else "Cannot open serial port"];
    }

    /** `Update()`: with the port open, one read; a parsed line replaces
        `rawValue` and `value`; a timeout or an unparsable line leaves both as
        they were, as does a closed port. */
    method Update(read: ReadResult)
      requires Valid()
      modifies this`rawValue, this`value
      ensures Valid()
      ensures !portOpen || read.Timeout? || ParseLine(read.text).None? ==>
                rawValue == old(rawValue) && value == old(value)
      ensures portOpen && read.Line? && ParseLine(read.text).Some? ==>
                rawValue == ParseLine(read.text).value && value == MapRaw(threshold, rawValue)
      ensures portOpen && read.Line? && ParseLine(read.text).Some? ==> 0.0 <= value <= 1.0
    {
      if portOpen {
        match read
        case Timeout =>
        case Line(line) =>
          var parsed := TryParseInt32(Trim(line));
          if parsed.Some? {
            rawValue := parsed.value;
            value := MapRaw(threshold, rawValue);
            MapRawShape(threshold, rawValue);
          }
      }
    }

    /** `OnApplicationQuit()`: closes an open port. */
    method OnApplicationQuit()
      modifies this`portOpen, this`log
      ensures !portOpen
      ensures log == old(log) + (if old(portOpen) then ["Serial port closed."] else [])
    {
      if portOpen {
        portOpen := false;
        log := log + ["Serial port closed."];
      }
    }
  }
}
