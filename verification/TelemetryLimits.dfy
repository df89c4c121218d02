/** How large a payload and its envelope can get, and when the reported awake time is the true
    one. */
module TelemetryLimits {
  import opened Format
  import opened Telemetry
  import Battery
  import Breadcrumb
  import Wake

  const UINT16_MAX := 0xFFFF
  const UINT32 := 0x1_0000_0000
  const INT32_MIN := -0x8000_0000
  const INT64_MIN := -0x8000_0000_0000_0000
  const INT64_MAX := 0x7FFF_FFFF_FFFF_FFFF

  /** Hundredths of hdop: the external module's driver carries thousandths in 32 bits, which as a
      float divided by a thousand come to at most 4294967.5. */
  const HDOP_MAX := 429_496_750

  predicate InRange(t: Record) {
    && t.longitude.scaled <= 180_000000 && t.latitude.scaled <= 90_000000
    && !t.hdop.neg && t.hdop.scaled <= HDOP_MAX
    && t.battMv <= UINT16_MAX
    && Int32(t.signalDbm)
    && t.awakeS < UINT32
  }

  /** The build stamp is YYYY-MM-DDThh:mmZ. */
  const STAMP_LENGTH := 17

  // ---------------------------------------------------------------- lengths

  function Shown(p: Piece): nat {
    |Show(p)|
  }

  lemma PowersOfTen()
    ensures Pow10(1) == 10 && Pow10(2) == 100 && Pow10(3) == 1000 && Pow10(4) == 10_000
    ensures Pow10(5) == 100_000 && Pow10(6) == 1_000_000 && Pow10(7) == 10_000_000
    ensures Pow10(9) == 1_000_000_000 && Pow10(10) == 10_000_000_000
    ensures Pow10(18) == 1_000_000_000_000_000_000 && Pow10(19) == 10_000_000_000_000_000_000
  {
    assert Pow10(8) == 100_000_000;
    assert Pow10(11) == 100_000_000_000;
    assert Pow10(12) == 1_000_000_000_000;
    assert Pow10(13) == 10_000_000_000_000;
    assert Pow10(14) == 100_000_000_000_000;
    assert Pow10(15) == 1_000_000_000_000_000;
    assert Pow10(16) == 10_000_000_000_000_000;
    assert Pow10(17) == 100_000_000_000_000_000;
  }

  lemma NatLength(n: nat, k: nat)
    requires 0 < k
    ensures Shown(Unsigned(n)) <= k <==> n < Pow10(k)
  {
    DigitsLength(n, k);
  }

  lemma DecimalLength(v: Fixed, places: nat)
    ensures Shown(Decimal(v, places)) == |Sign(v.neg)| + Shown(Unsigned(Whole(v, places))) + 1 + places
  {
  }

  lemma PositionLength(t: Record)
    ensures |Render(Position(t))| ==
            25 + Shown(Decimal(t.longitude, 6)) + Shown(Decimal(t.latitude, 6)) + Shown(Decimal(t.hdop, 2))
  {
    var p := Position(t);
    RenderSix(p[0], p[1], p[2], p[3], p[4], p[5]);
  }

  lemma SupplyLength(t: Record)
    ensures |Render(Supply(t))| ==
            32 + Shown(Unsigned(Battery.Percent(t.battMv))) + Shown(Unsigned(t.battMv))
            + Shown(Signed(t.charge.Code()))
  {
    var p := Supply(t);
    RenderSix(p[0], p[1], p[2], p[3], p[4], p[5]);
  }

  lemma CircumstanceLength(t: Record)
    ensures |Render(Circumstance(t))| ==
            34 + Shown(Signed(t.signalDbm)) + Shown(Unsigned(t.awakeS)) + |WakeName(t.wake)|
  {
    var p := Circumstance(t);
    RenderSix(p[0], p[1], p[2], p[3], p[4], p[5]);
  }

  lemma FieldsLength(t: Record)
    ensures |Render(Fields(t))| ==
            |Render(Position(t))| + |Render(Supply(t))| + |Render(Circumstance(t))| + 3
  {
    RenderFields(t);
  }

  lemma TailLength(id: Identity)
    ensures |Render(Tail(id))| == 19 + |id.fw| + |id.hw|
  {
    RenderTail(id);
  }

  // ---------------------------------------------------------------- the bounds

  lemma CoordinateLength(v: Fixed, degrees: nat)
    requires v.scaled <= degrees * 1_000_000
    ensures 100 <= degrees < 1000 ==> Shown(Decimal(v, 6)) <= 11
    ensures degrees < 100 ==> Shown(Decimal(v, 6)) <= 10
    ensures v == Fixed(true, 180_000000) ==> Shown(Decimal(v, 6)) == 11
    ensures v == Fixed(true, 90_000000) ==> Shown(Decimal(v, 6)) == 10
  {
    PowersOfTen();
    DecimalLength(v, 6);
    var whole := Whole(v, 6);
    assert whole == v.scaled / 1_000_000 <= degrees;
    NatLength(whole, 3);
    NatLength(whole, 2);
    NatLength(whole, 1);
  }

  lemma HdopLength(v: Fixed)
    requires !v.neg && v.scaled <= HDOP_MAX
    ensures Shown(Decimal(v, 2)) <= 10
    ensures v.scaled == HDOP_MAX ==> Shown(Decimal(v, 2)) == 10
  {
    PowersOfTen();
    DecimalLength(v, 2);
    NatLength(Whole(v, 2), 7);
    NatLength(Whole(v, 2), 6);
  }

  lemma SmallLengths(t: Record)
    requires InRange(t)
    ensures Shown(Unsigned(Battery.Percent(t.battMv))) <= 3 && Shown(Unsigned(t.battMv)) <= 5
    ensures Shown(Signed(t.charge.Code())) == 1
    ensures t.battMv == UINT16_MAX ==>
              Shown(Unsigned(Battery.Percent(t.battMv))) == 3 && Shown(Unsigned(t.battMv)) == 5
  {
    PowersOfTen();
    NatLength(Battery.Percent(t.battMv), 3);
    NatLength(Battery.Percent(t.battMv), 2);
    NatLength(t.battMv, 5);
    NatLength(t.battMv, 4);
    NatLength(t.charge.Code(), 1);
  }

  lemma WideLengths(t: Record)
    requires InRange(t)
    ensures Shown(Signed(t.signalDbm)) <= 11 && Shown(Unsigned(t.awakeS)) <= 10
    ensures |WakeName(t.wake)| <= 6
    ensures t.signalDbm == INT32_MIN ==> Shown(Signed(t.signalDbm)) == 11
    ensures t.awakeS == UINT32 - 1 ==> Shown(Unsigned(t.awakeS)) == 10
    ensures t.wake == Wake.Motion ==> |WakeName(t.wake)| == 6
  {
    PowersOfTen();
    var n := if t.signalDbm < 0 then -t.signalDbm else t.signalDbm;
    NatLength(n, 10);
    NatLength(t.awakeS, 10);
    NatLength(n, 9);
    NatLength(t.awakeS, 9);
  }

  /** The longest text without its wdt fragment and identity. */
  const TEXT_MAX := 180

  lemma TextLength(t: Record, code: int, id: Identity)
    requires InRange(t)
    ensures |Text(t, code, id)| <= TEXT_MAX + |WdtFragment(code)| + |id.fw| + |id.hw|
    ensures t == Widest() ==> |Text(t, code, id)| == TEXT_MAX + |WdtFragment(code)| + |id.fw| + |id.hw|
  {
    TextParts(t, code, id);
    FieldsLength(t);
    PositionLength(t);
    CoordinateLength(t.longitude, 180);
    CoordinateLength(t.latitude, 90);
    HdopLength(t.hdop);
    SupplyLength(t);
    SmallLengths(t);
    CircumstanceLength(t);
    WideLengths(t);
    TailLength(id);
  }

  /** Fifteen characters at most, eleven for a phase. */
  lemma FragmentLength(code: int)
    ensures |WdtFragment(code)| <= 15
    ensures 0 <= code <= Breadcrumb.PHASE_MAX ==> |WdtFragment(code)| <= 11
    ensures code == Breadcrumb.Phase.NoNetwork.Code() ==> |WdtFragment(code)| == 11
    ensures code == INT32_MIN ==> |WdtFragment(code)| == 15
  {
    if code != 0 {
      WdtFragmentText(code);
      LegibleLength(code);
      WdtUntruncatedExactly(code);
      PowersOfTen();
      CodeLength(code, 1);
      NatLength(if code < 0 then -code else code, 1);
    }
  }

  /** The longest record there is. */
  function Widest(): Record {
    Record(Fixed(true, 180_000000), Fixed(true, 90_000000), Fixed(false, HDOP_MAX), UINT16_MAX,
           Charging, INT32_MIN, UINT32 - 1, Wake.Motion)
  }

  /** The longest hardware revision a payload has room for next to any wdt code, and next to a
      phase's. */
  const HW_MAX := PAYLOAD_SIZE - 1 - TEXT_MAX - 15 - STAMP_LENGTH
  const HW_MAX_PHASE := PAYLOAD_SIZE - 1 - TEXT_MAX - 11 - STAMP_LENGTH

  /** Every report in range with every code the retained word can give fits the payload buffer
      exactly when the hardware string has at most 43 characters, so the -ENOMEM of
      telemetry_build_json() is then unreachable; 47 if the word is a phase's. The default has
      15. */
  lemma PayloadFitsExactly(id: Identity)
    requires |id.fw| == STAMP_LENGTH
    ensures HW_MAX == 43 && HW_MAX_PHASE == 47 && |"feather-nrf9151"| <= HW_MAX
    ensures (forall t, code :: InRange(t) && Int32(code) ==> BuildJson(t, code, id, PAYLOAD_SIZE).Some?)
            <==> |id.hw| <= HW_MAX
    ensures (forall t, code :: InRange(t) && 0 <= code <= Breadcrumb.PHASE_MAX
                               ==> BuildJson(t, code, id, PAYLOAD_SIZE).Some?)
            <==> |id.hw| <= HW_MAX_PHASE
  {
    forall t, code | InRange(t)
      ensures |id.hw| <= HW_MAX ==> BuildJson(t, code, id, PAYLOAD_SIZE).Some?
      ensures |id.hw| <= HW_MAX_PHASE && 0 <= code <= Breadcrumb.PHASE_MAX
              ==> BuildJson(t, code, id, PAYLOAD_SIZE).Some?
    {
      TextLength(t, code, id);
      FragmentLength(code);
    }
    var phase := Breadcrumb.Phase.NoNetwork.Code();
    assert InRange(Widest()) && Int32(INT32_MIN) && 0 <= phase <= Breadcrumb.PHASE_MAX;
    TextLength(Widest(), INT32_MIN, id);
    FragmentLength(INT32_MIN);
    TextLength(Widest(), phase, id);
    FragmentLength(phase);
    assert |id.hw| > HW_MAX ==> BuildJson(Widest(), INT32_MIN, id, PAYLOAD_SIZE).None?;
    assert |id.hw| > HW_MAX_PHASE ==> BuildJson(Widest(), phase, id, PAYLOAD_SIZE).None?;
  }

  // ---------------------------------------------------------------- the nRF Cloud envelope

  /** cloud_send_telemetry()'s device message; the timestamp is left out while the time is
      unknown. */
  function Envelope(appId: string, ts: Option<int>, payload: string): string {
    "{\"appId\":\"" + appId + "\",\"messageType\":\"DATA\","
    + (match ts case Some(ms) => "\"ts\":" + Show(Signed(ms)) + "," case None => "")
    + "\"data\":" + payload + "}"
  }

  lemma TimestampLength(ms: int)
    requires INT64_MIN <= ms <= INT64_MAX
    ensures Shown(Signed(ms)) <= 20
    ensures ms == INT64_MIN ==> Shown(Signed(ms)) == 20
  {
    PowersOfTen();
    var n := if ms < 0 then -ms else ms;
    NatLength(n, 19);
    NatLength(n, 18);
  }

  /** The longest application id the envelope has room for around a full payload. */
  const APP_ID_MAX := 61

  /** The envelope around every payload of at most 255 characters fits its buffer exactly when
      the application id has at most 61 characters; the default has 10. */
  lemma EnvelopeFitsExactly(appId: string)
    ensures (forall ts: Option<int>, payload: string ::
               |payload| < PAYLOAD_SIZE && (ts.Some? ==> INT64_MIN <= ts.value <= INT64_MAX)
               ==> |Envelope(appId, ts, payload)| < ENVELOPE_SIZE)
            <==> |appId| <= APP_ID_MAX
    ensures |"GPSTRACKER"| <= APP_ID_MAX
  {
    if |appId| <= APP_ID_MAX {
      forall ts: Option<int>, payload: string |
        |payload| < PAYLOAD_SIZE && (ts.Some? ==> INT64_MIN <= ts.value <= INT64_MAX)
        ensures |Envelope(appId, ts, payload)| < ENVELOPE_SIZE
      {
        if ts.Some? {
          TimestampLength(ts.value);
        }
      }
    } else {
      var payload := seq(PAYLOAD_SIZE - 1, i => 'x');
      TimestampLength(INT64_MIN);
      assert |Envelope(appId, Some(INT64_MIN), payload)| >= ENVELOPE_SIZE;
    }
  }

  // ---------------------------------------------------------------- the awake time

  /** report_fix(): the wake instant was cut to 32 bits, the difference to now is divided by a
      thousand and cut to 32 bits again. */
  function AwakeField(wakeMs: nat, nowMs: nat): nat
    requires wakeMs <= nowMs
  {
    ((nowMs - wakeMs % UINT32) / 1000) % UINT32
  }

  /** The field is the true awake time exactly when the high word of the wake instant is a
      multiple of 1000 - in practice, when it is 0: a cycle that starts more than 2^32 ms
      (49.7 days) after boot reports a wrong awake time. */
  lemma AwakeFieldExactlyRight(wakeMs: nat, nowMs: nat)
    requires wakeMs <= nowMs && (nowMs - wakeMs) / 1000 < UINT32
    ensures AwakeField(wakeMs, nowMs) == (nowMs - wakeMs) / 1000 <==> (wakeMs / UINT32) % 1000 == 0
  {
    var a, k := nowMs - wakeMs, wakeMs / UINT32;
    var q, r := k / 1000, k % 1000;
    assert nowMs - wakeMs % UINT32 == a + k * UINT32;
    assert (a + k * UINT32) / 1000 == q * UINT32 + (a + r * UINT32) / 1000;
    var x := a / 1000;
    var d := (a + r * UINT32) / 1000 - x;
    assert r * UINT32 / 1000 <= d <= r * UINT32 / 1000 + 1;
    assert 0 <= d < UINT32;
    WrapOnce(q, x + d);
  }

  lemma WrapOnce(q: nat, y: nat)
    ensures (q * UINT32 + y) % UINT32 == y % UINT32
  {
  }
}
