/** The stand-alone homing script `Backup/Unused/home_robot.py`, which talks
    to the MKS servo drivers directly on the CAN bus: the frame layout with
    its additive checksum, the home (`0x91`), set-zero (`0x92`) and
    absolute-position (`0xF5`) commands, the target-position file, and the
    order in which the motors are driven. Finding the port, the bus itself
    and the sleeps are left out; the frames are what the script hands to
    `bus.send`. */
module HomeRobot {
  import opened Wrappers
  import opened PyOps
  import opened Text

  /** `MOTOR_IDS`, in the order the motors are driven. */
  const MotorIds: seq<int> := [3, 2, 1]

  /** `GEAR_RATIOS`, indexed by motor id - 1. */
  const GearRatios: seq<real> := [6.75, 75.0, 75.0, 24.0, 33.91, 33.91]

  const HomeCommand: int := 0x91
  const SetZeroCommand: int := 0x92
  const PositionCommand: int := 0xF5
  /** The RPM the position command carries, and its mode byte. */
  const PositionSpeed: int := 500
  const PositionMode: int := 0x02

  predicate IsByte(b: int) {
    0 <= b < 256
  }

  predicate AllBytes(bs: seq<int>) {
    forall i :: 0 <= i < |bs| ==> IsByte(bs[i])
  }

  // ---------------------------------------------------------------------------
  // frames and checksum

  function Sum(xs: seq<int>): int {
    if |xs| == 0 then 0 else Sum(xs[..|xs| - 1]) + xs[|xs| - 1]
  }

  /** `calculate_crc(data)`: `sum(data) & 0xFF`, the low byte of the sum. */
  function Checksum(data: seq<int>): (c: int)
    ensures IsByte(c)
    ensures (c - Sum(data)) % 256 == 0
  {
    Sum(data) % 256
  }

  /** A CAN frame: the arbitration id and the data bytes. */
  datatype Message = Message(arbitrationId: int, data: seq<int>)

  /** `send_can_message(bus, motor_id, command, data)`: the command byte,
      the data bytes and a checksum over the motor id and both. */
  function Frame(motorId: int, command: int, data: seq<int>): (m: Message)
    ensures m.arbitrationId == motorId
    ensures |m.data| == |data| + 2
    ensures m.data[0] == command && m.data[1..|data| + 1] == data
    ensures Intact(m)
  {
    var body := [command] + data;
    assert ([motorId] + body)[..|[motorId] + body|] == [motorId] + body;
    var m := Message(motorId, body + [Checksum([motorId] + body)]);
    assert m.data[..|m.data| - 1] == body;
    m
  }

  /** What a receiver checks: the last byte is the checksum of the id and
      the rest of the frame. */
  predicate Intact(m: Message) {
    |m.data| >= 1 && m.data[|m.data| - 1] == Checksum([m.arbitrationId] + m.data[..|m.data| - 1])
  }

  /** The command byte and data bytes a receiver reads out of a frame. */
  function Unframe(m: Message): (r: Option<(int, seq<int>)>)
    ensures r.Some? ==> Intact(m)
  {
    if |m.data| >= 2 && Intact(m) then Some((m.data[0], m.data[1..|m.data| - 1])) else None
  }

  /** A frame as sent reads back as the command and data it was built from. */
  lemma FrameRoundTrip(motorId: int, command: int, data: seq<int>)
    ensures Unframe(Frame(motorId, command, data)) == Some((command, data))
  {
  }

  /** Changing the sum by one entry. */
  lemma {:induction false} SumUpdate(xs: seq<int>, i: int, b: int)
    requires 0 <= i < |xs|
    ensures Sum(xs[i := b]) == Sum(xs) - xs[i] + b
    decreases |xs|
  {
    var ys := xs[i := b];
    if i < |xs| - 1 {
      assert ys[..|ys| - 1] == xs[..|xs| - 1][i := b];
      SumUpdate(xs[..|xs| - 1], i, b);
    } else {
      assert ys[..|ys| - 1] == xs[..|xs| - 1];
    }
  }

  /** The checksum catches any one corrupted byte before it. */
  lemma SingleByteErrorDetected(m: Message, i: int, b: int)
    requires Intact(m) && AllBytes(m.data)
    requires 0 <= i < |m.data| - 1 && IsByte(b) && b != m.data[i]
    ensures !Intact(Message(m.arbitrationId, m.data[i := b]))
  {
    var n := |m.data|;
    var body := [m.arbitrationId] + m.data[..n - 1];
    var body' := [m.arbitrationId] + m.data[i := b][..n - 1];
    assert body' == body[i + 1 := b];
    SumUpdate(body, i + 1, b);
    var d := b - m.data[i];
    assert -256 < d < 256 && d != 0;
    assert Sum(body') == Sum(body) + d;
    assert (Sum(body) + d) % 256 != Sum(body) % 256;
  }

  /** `home_motor`: `[0x91, crc]`. */
  function HomeFrame(motorId: int): (m: Message)
    ensures m == Message(motorId, [HomeCommand, (motorId + HomeCommand) % 256])
  {
    BareCommandChecksum(motorId, HomeCommand);
    Frame(motorId, HomeCommand, [])
  }

  /** The set-zero frame `[0x92, crc]`. */
  function SetZeroFrame(motorId: int): (m: Message)
    ensures m == Message(motorId, [SetZeroCommand, (motorId + SetZeroCommand) % 256])
  {
    BareCommandChecksum(motorId, SetZeroCommand);
    Frame(motorId, SetZeroCommand, [])
  }

  /** A frame without data bytes is the command and `(id + command) & 0xFF`. */
  lemma BareCommandChecksum(motorId: int, command: int)
    ensures Frame(motorId, command, []).data == [command, (motorId + command) % 256]
  {
    var xs := [motorId] + ([command] + []);
    assert xs[..1] == [motorId] && xs[..1][..0] == [];
    assert Sum(xs[..1]) == motorId;
  }

  // ---------------------------------------------------------------------------
  // int.to_bytes / int.from_bytes, big-endian

  function Pow256(k: nat): (p: int)
    ensures p >= 1
  {
    if k == 0 then 1 else 256 * Pow256(k - 1)
  }

  /** The low `k` bytes of `n`, most significant first. */
  function BigEndian(n: nat, k: nat): (bs: seq<int>)
    ensures |bs| == k && AllBytes(bs)
  {
    if k == 0 then [] else BigEndian(n / 256, k - 1) + [n % 256]
  }

  /** The value of a big-endian byte string. */
  function FromBigEndian(bs: seq<int>): int {
    if |bs| == 0 then 0 else 256 * FromBigEndian(bs[..|bs| - 1]) + bs[|bs| - 1]
  }

  lemma {:induction false} FromBigEndianBounds(bs: seq<int>)
    requires AllBytes(bs)
    ensures 0 <= FromBigEndian(bs) < Pow256(|bs|)
  {
    if |bs| > 0 {
      FromBigEndianBounds(bs[..|bs| - 1]);
    }
  }

  /** Reading back the low `k` bytes gives `n` modulo `256^k`. */
  lemma {:induction false} BigEndianValue(n: nat, k: nat)
    ensures FromBigEndian(BigEndian(n, k)) == n % Pow256(k)
  {
    if k > 0 {
      var bs := BigEndian(n, k);
      assert bs[..|bs| - 1] == BigEndian(n / 256, k - 1);
      BigEndianValue(n / 256, k - 1);
      DivModStep(n, Pow256(k - 1));
    }
  }

  /** `(n // 256) % p * 256 + n % 256 == n % (256 * p)`. */
  lemma DivModStep(n: nat, p: int)
    requires p >= 1
    ensures 256 * ((n / 256) % p) + n % 256 == n % (256 * p)
  {
    var q := n / 256;
    var r := n % 256;
    var a := q / p;
    var b := q % p;
    assert n == 256 * q + r;
    assert q == p * a + b;
    assert 256 * q == (256 * p) * a + 256 * b;
    assert 256 * b + r < 256 * p by {
      assert b <= p - 1;
      assert 256 * b <= 256 * p - 256;
    }
    ModUnique(n, 256 * p, a, 256 * b + r);
  }

  /** Division with remainder has one answer. */
  lemma ModUnique(n: int, d: int, q: int, r: int)
    requires d > 0 && n == d * q + r && 0 <= r < d
    ensures n / d == q && n % d == r
  {
    var q', r' := n / d, n % d;
    assert d * (q - q') == r' - r;
    if q - q' >= 1 {
      MulAtLeast(d, q - q');
    }
    if q' - q >= 1 {
      MulAtLeast(d, q' - q);
    }
  }

  lemma MulAtLeast(d: int, m: int)
    requires d > 0 && m >= 1
    ensures d * m >= d
  {
  }

  /** Bytes read as a number and written back give the same bytes. */
  lemma {:induction false} BigEndianOfValue(bs: seq<int>)
    requires AllBytes(bs)
    ensures FromBigEndian(bs) >= 0
    ensures BigEndian(FromBigEndian(bs), |bs|) == bs
  {
    FromBigEndianBounds(bs);
    if |bs| > 0 {
      var init := bs[..|bs| - 1];
      BigEndianOfValue(init);
      var v := FromBigEndian(bs);
      assert v == 256 * FromBigEndian(init) + bs[|bs| - 1];
      ModUnique(v, 256, FromBigEndian(init), bs[|bs| - 1]);
      assert bs == init + [bs[|bs| - 1]];
    }
  }

  /** `n.to_bytes(k, "big", signed=signed)`: `OverflowError` when `n` does
      not fit; a negative signed value is written in two's complement. */
  function ToBytes(n: int, k: nat, signed: bool): (r: Result<seq<int>, PyError>)
    ensures r.Success? <==> (if signed then -Pow256(k) <= 2 * n < Pow256(k) else 0 <= n < Pow256(k))
    ensures r.Failure? ==> r.error == OverflowError
    ensures r.Success? ==> |r.value| == k && AllBytes(r.value)
  {
    if signed && -Pow256(k) <= 2 * n < Pow256(k) then Success(BigEndian(n % Pow256(k), k))
    else if !signed && 0 <= n < Pow256(k) then Success(BigEndian(n, k))
    else Failure(OverflowError)
  }

  /** `int.from_bytes(bs, "big", signed=signed)`. */
  function FromBytes(bs: seq<int>, signed: bool): int {
    var v := FromBigEndian(bs);
    if signed && 2 * v >= Pow256(|bs|) then v - Pow256(|bs|) else v
  }

  /** Decoding what `to_bytes` wrote gives the number back. */
  lemma ToBytesRoundTrip(n: int, k: nat, signed: bool)
    requires ToBytes(n, k, signed).Success?
    ensures FromBytes(ToBytes(n, k, signed).value, signed) == n
  {
    var p := Pow256(k);
    if signed {
      var m := if n < 0 then n + p else n;
      ModUnique(n, p, if n < 0 then -1 else 0, m);
      BigEndianValue(m, k);
      ModUnique(m, p, 0, m);
      assert FromBigEndian(ToBytes(n, k, signed).value) == m;
    } else {
      BigEndianValue(n, k);
      ModUnique(n, p, 0, n);
    }
  }

  /** Every byte string of length `k` is what `to_bytes` writes for the
      number it decodes to. */
  lemma FromBytesRoundTrip(bs: seq<int>, signed: bool)
    requires AllBytes(bs)
    ensures ToBytes(FromBytes(bs, signed), |bs|, signed) == Success(bs)
  {
    BigEndianOfValue(bs);
    FromBigEndianBounds(bs);
    var p := Pow256(|bs|);
    var v := FromBigEndian(bs);
    if signed && 2 * v >= p {
      ModUnique(v - p, p, -1, v);
    } else if signed {
      ModUnique(v, p, 0, v);
    }
  }

  // ---------------------------------------------------------------------------
  // the position command

  /** `int(radians * GEAR_RATIOS[motor_id - 1] * 100)`. */
  function AbsPosition(motorId: int, radians: real): (r: Result<int, PyError>)
    ensures r.Success? <==> Index(GearRatios, motorId - 1).Some?
    ensures r.Failure? ==> r.error == IndexError
    ensures 1 <= motorId <= 6 ==> r == Success(Trunc(radians * GearRatios[motorId - 1] * 100.0))
  {
    match Index(GearRatios, motorId - 1)
    case None => Failure(IndexError)
    case Some(g) => Success(Trunc(radians * g * 100.0))
  }

  /** The `F5` frame: command, speed (two bytes), mode, position (three
      bytes, signed), checksum. */
  function PositionFrame(motorId: int, radians: real): (r: Result<Message, PyError>)
    ensures AbsPosition(motorId, radians).Failure? ==> r == Failure(IndexError)
    ensures AbsPosition(motorId, radians).Success? ==>
              (r.Success? <==> -Pow256(3) <= 2 * AbsPosition(motorId, radians).value < Pow256(3))
    ensures r.Failure? && AbsPosition(motorId, radians).Success? ==> r.error == OverflowError
    ensures r.Success? ==>
              && |r.value.data| == 8 && Intact(r.value) && r.value.arbitrationId == motorId
              && r.value.data[..4] == [PositionCommand, 0x01, 0xF4, PositionMode]
              && FromBytes(r.value.data[4..7], true) == AbsPosition(motorId, radians).value
  {
    match AbsPosition(motorId, radians)
    case Failure(e) => Failure(e)
    case Success(pos) =>
      match ToBytes(pos, 3, true)
      case Failure(e) => Failure(e)
      case Success(posBytes) =>
        var speedBytes := BigEndian(PositionSpeed, 2);
        assert speedBytes == [0x01, 0xF4];
        assert ToBytes(PositionSpeed, 2, false) == Success(speedBytes);
        var data := speedBytes + [PositionMode] + posBytes;
        var m := Frame(motorId, PositionCommand, data);
        ToBytesRoundTrip(pos, 3, true);
        assert m.data[4..7] == posBytes;
        Success(m)
  }

  /** `move_to_position`: the position frame twice, then set-zero. */
  function MoveToPosition(motorId: int, radians: real): (r: Result<seq<Message>, PyError>)
    ensures r.Success? <==> PositionFrame(motorId, radians).Success?
    ensures r.Success? ==> r.value == [PositionFrame(motorId, radians).value, PositionFrame(motorId, radians).value, SetZeroFrame(motorId)]
    ensures r.Failure? ==> r.error == PositionFrame(motorId, radians).error
  {
    match PositionFrame(motorId, radians)
    case Failure(e) => Failure(e)
    case Success(m) => Success([m, m, SetZeroFrame(motorId)])
  }

  // ---------------------------------------------------------------------------
  // the target-position file

  /** One line of the file: `id=position` gives an entry, a line that does
      not split into exactly two parts is skipped, and a part that does not
      parse raises `ValueError`. */
  function ParseLine(line: string): (r: Result<Option<(int, real)>, PyError>)
    ensures |Split(Strip(line), '=')| != 2 ==> r == Success(None)
    ensures r.Success? && r.value.Some? ==>
              var parts := Split(Strip(line), '=');
              |parts| == 2 && ParseInt(parts[0]) == Some(r.value.value.0) && ParseFloat(parts[1]) == Some(r.value.value.1)
    ensures r.Failure? ==> r.error == ValueError
    ensures var parts := Split(Strip(line), '=');
            |parts| == 2 ==> (r.Success? && r.value.Some? <==> ParseInt(parts[0]).Some? && ParseFloat(parts[1]).Some?)
    ensures var parts := Split(Strip(line), '=');
            |parts| == 2 && (ParseInt(parts[0]).None? || ParseFloat(parts[1]).None?) ==> r == Failure(ValueError)
  {
    var parts := Split(Strip(line), '=');
    if |parts| != 2 then Success(None)
    else match (ParseInt(parts[0]), ParseFloat(parts[1]))
      case (Some(k), Some(v)) => Success(Some((k, v)))
      case _ => Failure(ValueError)
  }

  /** The loop over the file's lines, adding to `acc`. */
  function ReadLines(lines: seq<string>, acc: map<int, real>): (r: Result<map<int, real>, PyError>)
    ensures r.Success? ==> acc.Keys <= r.value.Keys
    ensures r.Failure? ==> r.error == ValueError
    decreases |lines|
  {
    if |lines| == 0 then Success(acc)
    else match ParseLine(lines[0])
      case Failure(e) => Failure(e)
      case Success(None) => ReadLines(lines[1..], acc)
      case Success(Some(entry)) => ReadLines(lines[1..], acc[entry.0 := entry.1])
  }

  /** Reading one more line at the end acts on the result of the rest. */
  lemma {:induction false} ReadLinesSnoc(lines: seq<string>, line: string, acc: map<int, real>)
    ensures ReadLines(lines + [line], acc) ==
            match ReadLines(lines, acc)
            case Failure(e) => Failure(e)
            case Success(m) =>
              match ParseLine(line)
              case Failure(e) => Failure(e)
              case Success(None) => Success(m)
              case Success(Some(entry)) => Success(m[entry.0 := entry.1])
    decreases |lines|
  {
    if |lines| == 0 {
      assert lines + [line] == [line];
    } else {
      assert (lines + [line])[1..] == lines[1..] + [line];
      match ParseLine(lines[0])
      case Failure(_) =>
      case Success(None) => ReadLinesSnoc(lines[1..], line, acc);
      case Success(Some(entry)) => ReadLinesSnoc(lines[1..], line, acc[entry.0 := entry.1]);
    }
  }

  /** `read_target_positions`: without the file every motor's target is 0. */
  function ReadTargetPositions(file: Option<seq<string>>): (r: Result<map<int, real>, PyError>)
    ensures file.None? ==> r.Success? && r.value.Keys == {3, 2, 1} && forall k :: k in r.value ==> r.value[k] == 0.0
    ensures file.Some? && |file.value| == 0 ==> r == Success(map[])
  {
    match file
    case None => Success(map id | id in MotorIds :: 0.0)
    case Some(lines) => ReadLines(lines, map[])
  }

  /** A later line for the same motor overrides an earlier one. */
  lemma LaterLineOverrides(lines: seq<string>, line: string, k: int, v: real)
    ensures ParseLine(line) == Success(Some((k, v))) && ReadTargetPositions(Some(lines)).Success? ==>
              ReadTargetPositions(Some(lines + [line])) == Success(ReadTargetPositions(Some(lines)).value[k := v])
  {
    ReadLinesSnoc(lines, line, map[]);
  }

  /** A line without exactly one `=` changes nothing. */
  lemma MalformedLineIgnored(lines: seq<string>, line: string)
    requires |Split(Strip(line), '=')| != 2
    ensures ReadTargetPositions(Some(lines + [line])) == ReadTargetPositions(Some(lines))
  {
    ReadLinesSnoc(lines, line, map[]);
  }

  /** The line `str(k) + "=" + str(n)` reads back as `k -> n`. */
  lemma WrittenLineReadsBack(k: int, n: int)
    ensures ParseLine(IntToString(k) + "=" + IntToString(n)) == Success(Some((k, n as real)))
  {
    NoEqualsInNumber(n);
    ParseFloatOfString(n);
    LineReadsBack(k, IntToString(n), n as real);
  }

  /** A position written with a decimal point, `k=ddd.ddd`, reads back as
      `k` mapped to that value. */
  lemma DecimalLineReadsBack(k: int, whole: string, frac: string, text: string)
    requires |whole| > 0 && AllDigits(whole) && AllDigits(frac) && text == whole + "." + frac
    ensures ParseLine(IntToString(k) + "=" + text) == Success(Some((k, DecimalValue(whole, frac))))
  {
    var v := DecimalValue(whole, frac);
    assert '=' !in text && |text| > 0 && !IsSpace(text[0]) && !IsSpace(text[|text| - 1]) && ParseFloat(text) == Some(v) by {
      DecimalEnds(whole, frac, text);
      DecimalHasNoEquals(whole, frac, text);
      DecimalNotation(whole, frac, text);
    }
    LineReadsBack(k, text, v);
  }

  /** Digits, a point and digits contain no `=`. */
  lemma DecimalHasNoEquals(whole: string, frac: string, text: string)
    requires AllDigits(whole) && AllDigits(frac) && text == whole + "." + frac
    ensures '=' !in text
  {
    forall i | 0 <= i < |text| ensures text[i] != '=' {
      if i < |whole| {
        assert text[i] == whole[i];
      } else if i > |whole| {
        assert text[i] == frac[i - |whole| - 1];
      }
    }
  }

  /** The line `str(k) + "=" + text` reads back as `k` mapped to what `float`
      reads from `text`, for value text without `=` or surrounding whitespace. */
  lemma LineReadsBack(k: int, text: string, v: real)
    requires '=' !in text && |text| > 0 && !IsSpace(text[0]) && !IsSpace(text[|text| - 1])
    requires ParseFloat(text) == Some(v)
    ensures ParseLine(IntToString(k) + "=" + text) == Success(Some((k, v)))
  {
    var a := IntToString(k);
    NoEqualsInNumber(k);
    var line := a + "=" + text;
    assert |line| > 0 && !IsSpace(line[0]) && !IsSpace(line[|line| - 1]) by {
      assert line[0] == a[0] && line[|line| - 1] == text[|text| - 1];
    }
    StripUnchanged(line);
    assert Join([a, text], '=') == line;
    SplitJoin([a, text], '=');
    ParseIntOfString(k);
  }

  /** The decimal text of an integer has no `=`, and does not start or end
      with whitespace. */
  lemma NoEqualsInNumber(n: int)
    ensures '=' !in IntToString(n)
    ensures |IntToString(n)| > 0 && !IsSpace(IntToString(n)[0]) && !IsSpace(IntToString(n)[|IntToString(n)| - 1])
  {
    var s := IntToString(n);
    var digits := NatToString(if n < 0 then -n else n);
    assert forall i :: 0 <= i < |digits| ==> IsDigit(digits[i]);
    if n < 0 {
      assert s == "-" + digits;
      assert forall i :: 1 <= i < |s| ==> s[i] == digits[i - 1];
    }
  }

  // ---------------------------------------------------------------------------
  // the main routines

  /** What a run put on the bus, and the exception that ended it early, if any. */
  datatype Sent = Sent(frames: seq<Message>, error: Option<PyError>)

  /** `targets.get(motor_id, 0)`. */
  function TargetOf(targets: map<int, real>, motorId: int): real {
    if motorId in targets then targets[motorId] else 0.0
  }

  /** The frames for one motor: home, then the move. */
  function MotorFrames(motorId: int, targets: map<int, real>): (r: Result<seq<Message>, PyError>)
    ensures r.Success? ==> |r.value| == 4 && r.value[0] == HomeFrame(motorId)
    ensures r.Success? ==> forall j :: 0 <= j < 4 ==> r.value[j].arbitrationId == motorId
    ensures r.Success? <==> PositionFrame(motorId, TargetOf(targets, motorId)).Success?
  {
    match MoveToPosition(motorId, TargetOf(targets, motorId))
    case Failure(e) => Failure(e)
    case Success(ms) => Success([HomeFrame(motorId)] + ms)
  }

  /** What building each motor's frames gives, in motor order. */
  type Plan = Result<seq<Message>, PyError>

  function Plans(ids: seq<int>, targets: map<int, real>): (ps: seq<Plan>)
    ensures |ps| == |ids| && FourFrames(ps)
  {
    seq(|ids|, i requires 0 <= i < |ids| => MotorFrames(ids[i], targets))
  }

  /** Every plan that succeeds is one block of four frames. */
  predicate FourFrames(plans: seq<Plan>) {
    forall i :: 0 <= i < |plans| && plans[i].Success? ==> |plans[i].value| == 4
  }

  /** The position of the first plan that fails, or `|plans|` when none does. */
  function FirstFailure(plans: seq<Plan>): (k: nat)
    ensures k <= |plans|
    ensures forall i :: 0 <= i < k ==> plans[i].Success?
    ensures k < |plans| ==> plans[k].Failure?
    decreases |plans|
  {
    if |plans| == 0 then 0
    else if plans[0].Failure? then 0
    else
      var k := FirstFailure(plans[1..]);
      assert forall i :: 1 <= i < k + 1 ==> plans[i] == plans[1..][i - 1];
      1 + k
  }

  /** The `for motor_id in MOTOR_IDS` loop over the motors' plans (home
      frame first, then the move); an exception stops the run with the
      frames of the earlier motors, and the home frame of the failing one,
      already sent. */
  function Drive(ids: seq<int>, plans: seq<Plan>): (r: Sent)
    requires |plans| == |ids| && FourFrames(plans)
    ensures r.error.None? <==> FirstFailure(plans) == |plans|
    ensures r.error.None? ==> |r.frames| == 4 * |ids|
    ensures |r.frames| >= 4 * FirstFailure(plans)
    ensures r.error.Some? ==>
              var k := FirstFailure(plans);
              && r.error == Some(plans[k].error)
              && |r.frames| == 4 * k + 1
              && r.frames[4 * k] == HomeFrame(ids[k])
    decreases |ids|
  {
    if |ids| == 0 then Sent([], None)
    else match plans[0]
      case Failure(e) => Sent([HomeFrame(ids[0])], Some(e))
      case Success(first) =>
        assert FourFrames(plans[1..]) by {
          forall i | 0 <= i < |plans[1..]| && plans[1..][i].Success? ensures |plans[1..][i].value| == 4 {
            assert plans[1..][i] == plans[i + 1];
          }
        }
        var rest := Drive(ids[1..], plans[1..]);
        var r := Sent(first + rest.frames, rest.error);
        var k := FirstFailure(plans[1..]);
        assert FirstFailure(plans) == k + 1;
        if rest.error.Some? then
          assert ids[k + 1] == ids[1..][k] && plans[k + 1] == plans[1..][k];
          ShiftFrame(first, rest.frames, k + 1);
          r
        else
          r
  }

  /** Every motor before the first failure has its four frames sent, in order. */
  lemma {:induction false} DriveSendsBlocks(ids: seq<int>, plans: seq<Plan>, i: int)
    requires |plans| == |ids| && FourFrames(plans)
    requires 0 <= i < FirstFailure(plans)
    ensures 4 * i + 4 <= |Drive(ids, plans).frames|
    ensures Drive(ids, plans).frames[4 * i..4 * i + 4] == plans[i].value
    decreases |ids|
  {
    var first := plans[0].value;
    assert FourFrames(plans[1..]) by {
      forall j | 0 <= j < |plans[1..]| && plans[1..][j].Success? ensures |plans[1..][j].value| == 4 {
        assert plans[1..][j] == plans[j + 1];
      }
    }
    var rest := Drive(ids[1..], plans[1..]);
    assert Drive(ids, plans).frames == first + rest.frames;
    if i > 0 {
      assert FirstFailure(plans) == FirstFailure(plans[1..]) + 1;
      DriveSendsBlocks(ids[1..], plans[1..], i - 1);
      assert plans[i] == plans[1..][i - 1];
      ShiftBlock(first, rest.frames, i);
    }
  }

  /** Block `i` of four frames after a first block is block `i - 1` of the rest. */
  lemma ShiftBlock(first: seq<Message>, rest: seq<Message>, i: int)
    requires |first| == 4 && 1 <= i && 4 * i <= |rest|
    ensures 4 * i + 4 <= |first + rest|
    ensures (first + rest)[4 * i..4 * i + 4] == rest[4 * (i - 1)..4 * (i - 1) + 4]
  {
  }

  /** The frame opening block `i` after a first block opens block `i - 1` of the rest. */
  lemma ShiftFrame(first: seq<Message>, rest: seq<Message>, i: int)
    requires |first| == 4 && 1 <= i && 4 * (i - 1) < |rest|
    ensures (first + rest)[4 * i] == rest[4 * (i - 1)]
  {
  }

  /** `move_to_zero_pose`: without a CAN port nothing is sent; a target
      file that does not parse raises before anything is sent. */
  function MoveToZeroPose(portFound: bool, file: Option<seq<string>>): (r: Sent)
    ensures !portFound ==> r == Sent([], None)
    ensures portFound && ReadTargetPositions(file).Failure? ==> r == Sent([], Some(ValueError))
    ensures portFound && r.error.None? ==> |r.frames| == 12
  {
    if !portFound then Sent([], None)
    else match ReadTargetPositions(file)
      case Failure(e) => Sent([], Some(e))
      case Success(targets) => Drive(MotorIds, Plans(MotorIds, targets))
  }

  /** `move_to_sleep_pose`: the same, then motors 2 and 3 home once more. */
  function MoveToSleepPose(portFound: bool, file: Option<seq<string>>): (r: Sent)
    ensures !portFound ==> r == Sent([], None)
    ensures portFound && r.error.None? ==> |r.frames| == 14 && r.frames[12..] == [HomeFrame(2), HomeFrame(3)]
    ensures portFound && MoveToZeroPose(portFound, file).error.Some? ==> r == MoveToZeroPose(portFound, file)
    ensures portFound && r.error.None? ==> r.frames[..12] == MoveToZeroPose(portFound, file).frames
  {
    var run := MoveToZeroPose(portFound, file);
    if !portFound || run.error.Some? then run
    else Sent(run.frames + [HomeFrame(2), HomeFrame(3)], None)
  }

  /** Without a target file the motors go 3, 2, 1, each homed, sent to
      encoder position 0 twice and zeroed. */
  lemma MissingFileDrivesToZero(i: int)
    requires 0 <= i < 3
    ensures MoveToZeroPose(true, None).error.None?
    ensures |MoveToZeroPose(true, None).frames| == 12
    ensures MoveToPosition(MotorIds[i], 0.0).Success?
    ensures MoveToZeroPose(true, None).frames[4 * i..4 * i + 4] == [HomeFrame(MotorIds[i])] + MoveToPosition(MotorIds[i], 0.0).value
  {
    var targets := ReadTargetPositions(None).value;
    var plans := Plans(MotorIds, targets);
    forall j | 0 <= j < 3 ensures plans[j].Success? {
      UnsetTarget(targets, MotorIds[j]);
    }
    UnsetTarget(targets, MotorIds[i]);
    assert MoveToZeroPose(true, None) == Drive(MotorIds, plans);
    DriveSendsBlocks(MotorIds, plans, i);
  }

  /** A motor whose target reads as 0 is sent to encoder position 0: the
      position bytes of its frame decode to 0. */
  lemma UnsetTarget(targets: map<int, real>, id: int)
    requires 1 <= id <= 6 && TargetOf(targets, id) == 0.0
    ensures PositionFrame(id, 0.0).Success?
    ensures FromBytes(PositionFrame(id, 0.0).value.data[4..7], true) == 0
    ensures MotorFrames(id, targets) == Success([HomeFrame(id)] + MoveToPosition(id, 0.0).value)
  {
    assert AbsPosition(id, 0.0) == Success(0);
  }
}
