/** cloud_nrf.c: the device message around a payload, as a JSON text. */
module JsonEnvelope {
  import opened Format
  import opened JsonGrammar
  import opened JsonPayload
  import opened Telemetry
  import opened TelemetryLimits

  /** A member with no white space at all. */
  function Tight(front: Members, name: string, j: Json): Members {
    MoreMembers(front, Name("", name, ""), Padded("", j, ""))
  }

  function First(appId: string): Members {
    OneMember(Name("", "appId", ""), Padded("", String(appId), ""))
  }

  function Head(appId: string): Members {
    Tight(First(appId), "messageType", String("DATA"))
  }

  function Stamped(appId: string, ts: Option<int>): Members {
    match ts
    case None => Head(appId)
    case Some(ms) => Tight(Head(appId), "ts", Num(Signed(ms)))
  }

  function EnvelopeTree(appId: string, ts: Option<int>, data: Json): Json {
    Object(Tight(Stamped(appId, ts), "data", data))
  }

  lemma TightText(front: Members, name: string, j: Json)
    ensures MembersText(Tight(front, name, j)) == MembersText(front) + ",\"" + name + "\":" + TextOf(j)
  {
    var n := Name("", name, "");
    assert NameText(n) == "\"" + name + "\"";
    assert PaddedText(Padded("", j, "")) == TextOf(j);
  }

  lemma FirstText(appId: string)
    ensures MembersText(First(appId)) == "\"appId\":\"" + appId + "\""
  {
    assert NameText(Name("", "appId", "")) == "\"appId\"";
    assert PaddedText(Padded("", String(appId), "")) == "\"" + appId + "\"";
    assert "\"appId\":" + ("\"" + appId + "\"") == "\"appId\":\"" + appId + "\"";
  }

  const TYPE := "\",\"messageType\":\"DATA\""

  lemma HeadText(appId: string)
    ensures MembersText(Head(appId)) == "\"appId\":\"" + appId + TYPE
  {
    FirstText(appId);
    TightText(First(appId), "messageType", String("DATA"));
    assert TextOf(String("DATA")) == "\"DATA\"";
    Glue("\"appId\":\"" + appId, "\"", ",\"", "messageType", "\":", "\"DATA\"");
    assert "\"" + ",\"" + "messageType" + "\":" + "\"DATA\"" == TYPE;
  }

  lemma Glue(a: string, b: string, c: string, d: string, e: string, f: string)
    ensures a + b + c + d + e + f == a + (b + c + d + e + f)
  {
  }

  /** The stamp with its comma: in front of it among the members, behind it in the format. */
  lemma StampText(appId: string, ts: Option<int>)
    ensures MembersText(Stamped(appId, ts))
            == MembersText(Head(appId)) + match ts case Some(ms) => "," + ("\"ts\":" + Show(Signed(ms))) case None => ""
  {
    if ts.Some? {
      var ms := Show(Signed(ts.value));
      TightText(Head(appId), "ts", Num(Signed(ts.value)));
      assert ",\"" + "ts" + "\":" == "," + "\"ts\":";
      assert MembersText(Head(appId)) + ",\"" + "ts" + "\":" + ms
             == MembersText(Head(appId)) + ("," + ("\"ts\":" + ms));
    }
  }

  /** The format strings of cloud_send_telemetry(), piece by piece. */
  lemma WithStamp(open: string, id: string, kind: string, stamp: string, data: string, payload: string)
    ensures "{" + open + id + (kind + ",") + (stamp + ",") + data + payload + "}"
            == "{" + ((open + id + kind) + ("," + stamp) + ("," + data) + payload) + "}"
  {
    var head := open + id + kind;
    assert "{" + open + id + (kind + ",") == "{" + head + ",";
    assert "{" + head + "," + (stamp + ",") == "{" + (head + ("," + stamp)) + ",";
    assert "{" + (head + ("," + stamp)) + "," + data == "{" + (head + ("," + stamp) + ("," + data));
  }

  lemma WithoutStamp(open: string, id: string, kind: string, data: string, payload: string)
    ensures "{" + open + id + (kind + ",") + "" + data + payload + "}"
            == "{" + ((open + id + kind) + "" + ("," + data) + payload) + "}"
  {
    var head := open + id + kind;
    assert "{" + open + id + (kind + ",") == "{" + head + ",";
    assert "{" + head + "," + "" + data == "{" + (head + "" + ("," + data));
  }

  lemma DataText(appId: string, ts: Option<int>, data: Json)
    ensures TextOf(EnvelopeTree(appId, ts, data))
            == "{" + (MembersText(Stamped(appId, ts)) + ("," + "\"data\":") + TextOf(data)) + "}"
  {
    TightText(Stamped(appId, ts), "data", data);
    var m := MembersText(Stamped(appId, ts));
    assert ",\"" + "data" + "\":" == "," + "\"data\":";
    assert m + ",\"" + "data" + "\":" == m + ("," + "\"data\":");
  }

  const OPEN := "\"appId\":\""

  /** What the format strings print. */
  lemma EnvelopeText(appId: string, ts: Option<int>, payload: string)
    ensures ts == None ==>
              Envelope(appId, ts, payload) == "{" + OPEN + appId + (TYPE + ",") + "" + "\"data\":" + payload + "}"
    ensures ts.Some? ==>
              Envelope(appId, ts, payload)
              == "{" + OPEN + appId + (TYPE + ",") + ("\"ts\":" + Show(Signed(ts.value)) + ",") + "\"data\":" + payload + "}"
  {
    assert "{\"appId\":\"" == "{" + OPEN && "\",\"messageType\":\"DATA\"," == TYPE + ",";
  }

  /** The device message is the printed form of its tree. */
  lemma EnvelopePrints(appId: string, ts: Option<int>, data: Json)
    ensures Envelope(appId, ts, TextOf(data)) == TextOf(EnvelopeTree(appId, ts, data))
  {
    HeadText(appId);
    StampText(appId, ts);
    DataText(appId, ts, data);
    EnvelopeText(appId, ts, TextOf(data));
    if ts.Some? {
      WithStamp(OPEN, appId, TYPE, "\"ts\":" + Show(Signed(ts.value)), "\"data\":", TextOf(data));
    } else {
      WithoutStamp(OPEN, appId, TYPE, "\"data\":", TextOf(data));
    }
  }

  lemma TightConforms(front: Members, name: string, j: Json)
    requires !front.NoMembers? && WellFormedMembers(front) && Unescaped(name) && WellFormed(j)
    ensures WellFormedMembers(Tight(front, name, j)) && !Tight(front, name, j).NoMembers?
  {
    PlainChars(name);
  }

  lemma KeysUnescaped()
    ensures Unescaped("appId") && Unescaped("messageType") && Unescaped("DATA") && Unescaped("ts") && Unescaped("data")
  {
  }

  lemma KeyConforms(key: string, chars: string)
    requires Unescaped(key) && IsChars(chars)
    ensures WellFormedMembers(OneMember(Name("", key, ""), Padded("", String(chars), "")))
  {
    PlainChars(key);
  }

  lemma PlainString(chars: string)
    requires Unescaped(chars)
    ensures WellFormed(String(chars))
  {
    PlainChars(chars);
  }

  lemma EnvelopeConforms(appId: string, ts: Option<int>, data: Json)
    requires IsChars(appId) && WellFormed(data)
    ensures WellFormed(EnvelopeTree(appId, ts, data))
  {
    KeysUnescaped();
    KeyConforms("appId", appId);
    PlainString("DATA");
    TightConforms(First(appId), "messageType", String("DATA"));
    if ts.Some? {
      NumConforms(Signed(ts.value));
      TightConforms(Head(appId), "ts", Num(Signed(ts.value)));
    }
    TightConforms(Stamped(appId, ts), "data", data);
  }

  lemma EntriesTight(front: Members, name: string, j: Json)
    ensures Entries(Tight(front, name, j)) == Entries(front) + [Entry(name, j)]
  {
  }

  /** Around a payload that is JSON the device message is JSON too, with the documented keys, the
      time exactly when it is known, and the payload's own tree as its data. */
  lemma EnvelopeIsJson(appId: string, ts: Option<int>, t: Record, code: int, id: Identity)
    requires IsChars(appId) && IsChars(id.fw) && IsChars(id.hw) && Legible(code)
    ensures IsJson(Envelope(appId, ts, Text(t, code, id)))
    ensures var e := EnvelopeTree(appId, ts, Tree(t, code, id));
            && TextOf(e) == Envelope(appId, ts, Text(t, code, id))
            && Entries(e.members)
               == [Entry("appId", String(appId)), Entry("messageType", String("DATA"))]
                  + (if ts.Some? then [Entry("ts", Num(Signed(ts.value)))] else [])
                  + [Entry("data", Tree(t, code, id))]
  {
    var data := Tree(t, code, id);
    var e := EnvelopeTree(appId, ts, data);
    PayloadIsJson(t, code, id);
    TreeConforms(t, code, id);
    EnvelopePrints(appId, ts, data);
    EnvelopeConforms(appId, ts, data);
    var p := Padded("", e, "");
    assert WellFormedPadded(p) && PaddedText(p) == TextOf(e);
    EntriesListed(appId, ts, data);
  }

  lemma EntriesListed(appId: string, ts: Option<int>, data: Json)
    ensures Entries(EnvelopeTree(appId, ts, data).members)
            == [Entry("appId", String(appId)), Entry("messageType", String("DATA"))]
               + (if ts.Some? then [Entry("ts", Num(Signed(ts.value)))] else [])
               + [Entry("data", data)]
  {
    EntriesTight(First(appId), "messageType", String("DATA"));
    if ts.Some? {
      EntriesTight(Head(appId), "ts", Num(Signed(ts.value)));
    }
    EntriesTight(Stamped(appId, ts), "data", data);
  }
}
