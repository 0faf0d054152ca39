// The text forms of an event: the reply of the reserve script, the reply of the receipt script and the
// stream message. Identifiers travel as decimal strings, so all 64-bit values survive Lua and JSON.
module Codec {
  import opened SeckillModel

  const MAX_UINT64: nat := 18446744073709551615
  const MAX_INT64: nat := 9223372036854775807

  // ---- Decimal text ---------------------------------------------------------------------------------

  predicate IsDigit(c: char) {
    '0' <= c <= '9'
  }

  predicate AllDigits(s: string) {
    forall i :: 0 <= i < |s| ==> IsDigit(s[i])
  }

  function Digit(n: nat): char
    requires n < 10
  {
    '0' + n as char
  }

  function FormatUint(n: nat): string {
    if n < 10 then [Digit(n)] else FormatUint(n / 10) + [Digit(n % 10)]
  }

  function Value(s: string): nat
    requires AllDigits(s)
  {
    if s == [] then 0 else 10 * Value(s[..|s|-1]) + (s[|s|-1] - '0') as nat
  }

  // strconv.ParseUint(s, 10, 64)
  function ParseUint(s: string): Option<nat> {
    if s != [] && AllDigits(s) && Value(s) <= MAX_UINT64 then Some(Value(s)) else None
  }

  // strconv.ParseInt(s, 10, 64)
  function ParseInt(s: string): Option<int> {
    if s == [] then None
    else
      var signed := s[0] == '-' || s[0] == '+';
      var digits := if signed then s[1..] else s;
      if digits == [] || !AllDigits(digits) then None
      else
        var n: int := Value(digits);
        if s[0] == '-' then if n <= MAX_INT64 + 1 then Some(-n) else None
        else if n <= MAX_INT64 then Some(n) else None
  }

  lemma {:induction false} FormatRoundTrip(n: nat)
    ensures FormatUint(n) != [] && AllDigits(FormatUint(n)) && Value(FormatUint(n)) == n
  {
    if n >= 10 {
      FormatRoundTrip(n / 10);
      assert FormatUint(n)[..|FormatUint(n)|-1] == FormatUint(n / 10);
    }
  }

  function FormatInt(n: int): string {
    if n < 0 then "-" + FormatUint(-n) else FormatUint(n)
  }

  // Every 64-bit number survives its text, and nothing outside the range is parsed.
  lemma IntRoundTrip(n: int)
    ensures -(MAX_INT64 + 1) <= n <= MAX_INT64 ==> ParseInt(FormatInt(n)) == Some(n)
    ensures !(-(MAX_INT64 + 1) <= n <= MAX_INT64) ==> ParseInt(FormatInt(n)) == None
    ensures n >= 0 ==> ParseUint(FormatInt(n)) == if n <= MAX_UINT64 then Some(n) else None
  {
    var m := if n < 0 then -n else n;
    FormatRoundTrip(m);
    assert IsDigit(FormatUint(m)[0]);
    if n < 0 { assert FormatInt(n)[1..] == FormatUint(m); }
  }

  function IdText(id: StreamId): string {
    FormatUint(id.ms) + "-" + FormatUint(id.seqNo)
  }

  // ^[0-9]+-[0-9]+$
  predicate IsStreamId(s: string) {
    exists k :: 0 < k < |s| - 1 && s[k] == '-' && AllDigits(s[..k]) && AllDigits(s[k + 1..])
  }

  lemma IdTextIsStreamId(id: StreamId)
    ensures IsStreamId(IdText(id))
  {
    FormatRoundTrip(id.ms);
    FormatRoundTrip(id.seqNo);
    var k := |FormatUint(id.ms)|;
    assert IdText(id)[..k] == FormatUint(id.ms) && IdText(id)[k] == '-' && IdText(id)[k + 1..] == FormatUint(id.seqNo);
  }

  lemma DashSplits(x: string, y: string, u: string, v: string)
    requires AllDigits(x) && AllDigits(u) && |x| <= |u| && x + "-" + y == u + "-" + v
    ensures x == u && y == v
  {
    var s := x + "-" + y;
    assert s[|x|] == '-' && forall k :: 0 <= k < |u| ==> s[k] == u[k];
    assert s[..|x|] == x && (u + "-" + v)[..|u|] == u;
    assert s[|x| + 1..] == y && (u + "-" + v)[|u| + 1..] == v;
  }

  // Distinct stream entries have distinct tickets.
  lemma TicketsAreUnique(a: StreamId, b: StreamId)
    requires IdText(a) == IdText(b)
    ensures a == b
  {
    FormatRoundTrip(a.ms); FormatRoundTrip(a.seqNo);
    FormatRoundTrip(b.ms); FormatRoundTrip(b.seqNo);
    hide FormatUint, AllDigits, Value;
    if |FormatUint(a.ms)| <= |FormatUint(b.ms)| {
      DashSplits(FormatUint(a.ms), FormatUint(a.seqNo), FormatUint(b.ms), FormatUint(b.seqNo));
    } else {
      DashSplits(FormatUint(b.ms), FormatUint(b.seqNo), FormatUint(a.ms), FormatUint(a.seqNo));
    }
  }

  // ---- Replies --------------------------------------------------------------------------------------

  // A Redis reply element; only text is meaningful here.
  datatype Element = Text(text: string) | Other

  // The decoded event the service works with.
  datatype Delivered = Delivered(id: string, voucher: nat, user: nat, generation: string, acceptedMs: int)

  function Wire(voucher: nat, e: Event): Delivered {
    Delivered(IdText(e.id), voucher, e.user, e.generation, e.acceptedMs)
  }

  function RejectionKind(code: string): Kind {
    if code == "activity_not_started" then ActivityNotStarted
    else if code == "activity_ended" then ActivityEnded
    else if code == "sold_out" then SoldOut
    else if code == "already_purchased" then AlreadyPurchased
    else if code == "not_found" then NotFound
    else Dependency
  }

  function DecodeReply(values: seq<Element>, voucher: nat, user: nat): Reply<Delivered> {
    if values == [] || values[0].Other? then Err(Dependency)
    else if values[0].text != "accepted" then
      if |values| != 1 then Err(Dependency) else Err(RejectionKind(values[0].text))
    else if |values| != 4 || values[1].Other? || values[2].Other? || values[3].Other? then Err(Dependency)
    else
      var ms := ParseInt(values[3].text);
      if !IsStreamId(values[1].text) || !ValidGeneration(values[2].text) || ms.None? || !(0 <= ms.value <= MAX_EXACT)
      then Err(Dependency)
      else Ok(Delivered(values[1].text, voucher, user, values[2].text, ms.value))
  }

  function Accepted(id: string, generation: string, stamp: string): seq<Element> {
    [Text("accepted"), Text(id), Text(generation), Text(stamp)]
  }

  function ReserveReply(e: Event): seq<Element>
    requires e.acceptedMs >= 0
  {
    Accepted(IdText(e.id), e.generation, FormatUint(e.acceptedMs))
  }

  // The code with which the scripts refuse for this reason.
  function CodeOf(kind: Kind): string {
    match kind
    case ActivityNotStarted => "activity_not_started"
    case ActivityEnded => "activity_ended"
    case SoldOut => "sold_out"
    case AlreadyPurchased => "already_purchased"
    case NotFound => "not_found"
    case _ => "dependency_failure"
  }

  // What a script answers with: an accepted event, or the code of a refusal.
  function ScriptReply(reply: Reply<Event>): seq<Element>
    requires reply.Ok? ==> reply.value.acceptedMs >= 0
  {
    if reply.Ok? then ReserveReply(reply.value) else [Text(CodeOf(reply.kind))]
  }

  const PUBLIC: set<Kind> := {ActivityNotStarted, ActivityEnded, SoldOut, AlreadyPurchased, NotFound}

  // A refusal is reported as its own kind exactly when it is one of the public codes; every other text is a failure.
  lemma RefusalsDecode(code: string, kind: Kind, voucher: nat, user: nat)
    requires code != "accepted"
    ensures var reply := DecodeReply([Text(code)], voucher, user);
      && reply.Err?
      && (kind in PUBLIC ==> (reply.kind == kind <==> code == CodeOf(kind)))
      && ((forall k :: k in PUBLIC ==> code != CodeOf(k)) ==> reply.kind == Dependency)
  {
    CodesDiffer();
  }

  lemma RefusalDecodes(kind: Kind, voucher: nat, user: nat)
    requires kind in PUBLIC
    ensures DecodeReply(ScriptReply(Err(kind)), voucher, user) == Err(kind)
  {
    assert |"accepted"| == 8 && |"sold_out"| == 8 && "sold_out"[0] == 's';
    RefusalsDecode(CodeOf(kind), kind, voucher, user);
  }

  lemma CodesDiffer()
    ensures forall a, b :: a in PUBLIC && b in PUBLIC && CodeOf(a) == CodeOf(b) ==> a == b
  {
    assert |CodeOf(ActivityNotStarted)| == 20 && |CodeOf(ActivityEnded)| == 14 && |CodeOf(SoldOut)| == 8;
    assert |CodeOf(AlreadyPurchased)| == 17 && |CodeOf(NotFound)| == 9;
  }

  // Only a well-formed accepted reply is taken for an event, and then for exactly the event it spells.
  lemma AcceptedIsStrict(values: seq<Element>, voucher: nat, user: nat)
    requires DecodeReply(values, voucher, user).Ok?
    ensures var d := DecodeReply(values, voucher, user).value;
      && |values| == 4 && values[3].Text? && values == Accepted(d.id, d.generation, values[3].text)
      && ParseInt(values[3].text) == Some(d.acceptedMs)
      && IsStreamId(d.id) && ValidGeneration(d.generation) && 0 <= d.acceptedMs <= MAX_EXACT && d.voucher == voucher && d.user == user
  {
  }

  // ---- Stream entries ---------------------------------------------------------------------------------

  function EntryFields(voucher: nat, e: Event): seq<string>
    requires e.acceptedMs >= 0
  {
    ["voucher_id", FormatUint(voucher), "user_id", FormatUint(e.user),
     "generation", e.generation, "accepted_ms", FormatUint(e.acceptedMs)]
  }

  // Field i of an entry is at 2i, its value at 2i + 1.
  predicate DistinctNames(fields: seq<string>, n: nat)
    requires 2 * n <= |fields|
  {
    forall i, j :: 0 <= i < j < n ==> fields[2 * i] != fields[2 * j]
  }

  function PairMap(fields: seq<string>, n: nat): map<string, string>
    requires 2 * n <= |fields|
  {
    if n == 0 then map[] else PairMap(fields, n - 1)[fields[2 * (n - 1)] := fields[2 * (n - 1) + 1]]
  }

  lemma {:induction false} PairMapKeys(fields: seq<string>, n: nat, name: string)
    requires 2 * n <= |fields|
    ensures name in PairMap(fields, n) <==> exists i :: 0 <= i < n && fields[2 * i] == name
  {
    if n > 0 {
      PairMapKeys(fields, n - 1, name);
      if fields[2 * (n - 1)] == name { assert name in PairMap(fields, n); }
    }
  }

  // The fields of one entry, or nothing if they are not four distinct pairs.
  method ParseFields(fields: seq<string>) returns (data: Option<map<string, string>>)
    ensures data.Some? <==> |fields| == 8 && DistinctNames(fields, 4)
    ensures data.Some? ==> data.value == PairMap(fields, 4)
  {
    if |fields| != 8 { return None; }
    var seen: map<string, string> := map[];
    for i := 0 to 4
      invariant seen == PairMap(fields, i) && DistinctNames(fields, i)
    {
      PairMapKeys(fields, i, fields[2 * i]);
      if fields[2 * i] in seen { return None; }
      seen := seen[fields[2 * i] := fields[2 * i + 1]];
    }
    data := Some(seen);
  }

  function Get(m: map<string, string>, name: string): string {
    if name in m then m[name] else ""
  }

  predicate Genuine(fields: seq<string>, voucher: string, user: string, generation: string)
  {
    && |fields| == 8 && DistinctNames(fields, 4)
    && var data := PairMap(fields, 4);
    && {"voucher_id", "user_id", "generation", "accepted_ms"} <= data.Keys
    && data["voucher_id"] == voucher && data["user_id"] == user && data["generation"] == generation
  }

  // marker is the buyer field of the hash, entries what XRANGE found at that id.
  function ReceiptReply(marker: Option<string>, entries: seq<seq<string>>, voucher: string, user: string, generation: string): seq<Element> {
    if marker.None? then [Text("not_found")]
    else if !IsStreamId(marker.value) || |entries| != 1 || !Genuine(entries[0], voucher, user, generation) then
      [Text("dependency_failure")]
    else Accepted(marker.value, generation, PairMap(entries[0], 4)["accepted_ms"])
  }

  method Receipt(marker: Option<string>, entries: seq<seq<string>>, voucher: string, user: string, generation: string)
    returns (reply: seq<Element>)
    ensures reply == ReceiptReply(marker, entries, voucher, user, generation)
  {
    if marker.None? { return [Text("not_found")]; }
    if !IsStreamId(marker.value) || |entries| != 1 { return [Text("dependency_failure")]; }
    var data := ParseFields(entries[0]);
    if data.None? { return [Text("dependency_failure")]; }
    var d := data.value;
    if "voucher_id" !in d || d["voucher_id"] != voucher || "user_id" !in d || d["user_id"] != user
       || "generation" !in d || d["generation"] != generation || "accepted_ms" !in d {
      return [Text("dependency_failure")];
    }
    reply := Accepted(marker.value, d["generation"], d["accepted_ms"]);
  }

  function FieldMap(voucher: string, user: string, generation: string, stamp: string): map<string, string> {
    map["voucher_id" := voucher, "user_id" := user, "generation" := generation, "accepted_ms" := stamp]
  }

  lemma {:induction false} PairCount(fields: seq<string>, n: nat)
    requires 2 * n <= |fields|
    ensures |PairMap(fields, n)| <= n
  {
    if n > 0 {
      PairCount(fields, n - 1);
      var before, name := PairMap(fields, n - 1), fields[2 * (n - 1)];
      assert PairMap(fields, n).Keys == before.Keys + {name};
    }
  }

  lemma FourNames()
    ensures |{"voucher_id", "user_id", "generation", "accepted_ms"}| == 4
  {
    assert |"voucher_id"| == 10 && |"user_id"| == 7 && |"generation"| == 10 && |"accepted_ms"| == 11;
    assert "voucher_id"[0] == 'v' && "generation"[0] == 'g';
  }

  lemma AllNames(data: map<string, string>)
    requires |data| <= 4 && {"voucher_id", "user_id", "generation", "accepted_ms"} <= data.Keys
    ensures data.Keys == {"voucher_id", "user_id", "generation", "accepted_ms"}
  {
    FourNames();
    var names, more := {"voucher_id", "user_id", "generation", "accepted_ms"}, data.Keys - {"voucher_id", "user_id", "generation", "accepted_ms"};
    assert data.Keys == names + more && |names + more| == |names| + |more|;
  }

  // The script accepts only the one entry its marker names, and only if it is made of exactly this buyer's four fields,
  // in whatever order; it tells apart a buyer without a marker from a marker and an entry that disagree.
  lemma ReceiptIsStrict(marker: Option<string>, entries: seq<seq<string>>, voucher: string, user: string, generation: string)
    ensures var reply := ReceiptReply(marker, entries, voucher, user, generation);
      && (reply == [Text("not_found")] <==> marker.None?)
      && (reply == [Text("dependency_failure")] || marker.None? || exists stamp :: reply == Accepted(marker.value, generation, stamp))
      && (forall stamp :: marker.Some? ==>
            (reply == Accepted(marker.value, generation, stamp) <==>
             && IsStreamId(marker.value) && |entries| == 1 && |entries[0]| == 8 && DistinctNames(entries[0], 4)
             && PairMap(entries[0], 4) == FieldMap(voucher, user, generation, stamp)))
  {
    assert |"not_found"| != |"dependency_failure"|;
    if marker.Some? && |entries| == 1 && |entries[0]| == 8 {
      GenuineIs(entries[0], voucher, user, generation);
    }
  }

  lemma GenuineIs(fields: seq<string>, voucher: string, user: string, generation: string)
    requires |fields| == 8
    ensures Genuine(fields, voucher, user, generation) ==>
      PairMap(fields, 4) == FieldMap(voucher, user, generation, PairMap(fields, 4)["accepted_ms"])
    ensures forall stamp :: DistinctNames(fields, 4) && PairMap(fields, 4) == FieldMap(voucher, user, generation, stamp) ==>
      Genuine(fields, voucher, user, generation) && PairMap(fields, 4)["accepted_ms"] == stamp
  {
    hide PairMap, DistinctNames;
    FourNames();
    if Genuine(fields, voucher, user, generation) {
      PairCount(fields, 4);
      AllNames(PairMap(fields, 4));
    }
  }

  // ---- Messages ---------------------------------------------------------------------------------------

  datatype Message = Message(id: string, values: map<string, string>)

  function MessageOf(voucher: nat, e: Event): Message
    requires e.acceptedMs >= 0
  {
    Message(IdText(e.id), PairMap(EntryFields(voucher, e), 4))
  }

  function DecodeMessage(voucher: nat, msg: Message): Option<Delivered> {
    var user := ParseUint(Get(msg.values, "user_id"));
    if user.None? || user.value == 0 || Get(msg.values, "voucher_id") != FormatUint(voucher) || |msg.values| != 4 then None
    else if "generation" !in msg.values || "accepted_ms" !in msg.values then None
    else
      var reply := DecodeReply(Accepted(msg.id, msg.values["generation"], msg.values["accepted_ms"]), voucher, user.value);
      if reply.Ok? then Some(reply.value) else None
  }

  // A message is taken for an event exactly if it holds the four fields, names this activity and a user, and spells a
  // valid id, generation and time; and then for exactly that event.
  lemma MessageIsStrict(voucher: nat, msg: Message)
    ensures var event := DecodeMessage(voucher, msg); var data := msg.values;
      (event.Some? <==>
        && |data| == 4 && {"generation", "accepted_ms"} <= data.Keys
        && Get(data, "voucher_id") == FormatUint(voucher)
        && ParseUint(Get(data, "user_id")).Some? && ParseUint(Get(data, "user_id")) != Some(0)
        && IsStreamId(msg.id) && ValidGeneration(data["generation"])
        && ParseInt(data["accepted_ms"]).Some? && 0 <= ParseInt(data["accepted_ms"]).value <= MAX_EXACT)
    ensures var event := DecodeMessage(voucher, msg); var data := msg.values;
      event.Some? ==> event.value == Delivered(msg.id, voucher, ParseUint(Get(data, "user_id")).value, data["generation"],
                                               ParseInt(data["accepted_ms"]).value)
  {
    hide ParseUint, ParseInt, IsStreamId, ValidGeneration, FormatUint;
  }

  function Valid(voucher: nat, msgs: seq<Message>): seq<Delivered> {
    if msgs == [] then []
    else
      var init, last := Valid(voucher, msgs[..|msgs|-1]), DecodeMessage(voucher, msgs[|msgs|-1]);
      if last.Some? then init + [last.value] else init
  }

  function Malformed(voucher: nat, msgs: seq<Message>): seq<string> {
    if msgs == [] then []
    else
      var init, last := Malformed(voucher, msgs[..|msgs|-1]), msgs[|msgs|-1];
      if DecodeMessage(voucher, last).None? then init + [last.id] else init
  }

  // A malformed entry does not keep the others of its batch from being delivered.
  method DecodeMessages(voucher: nat, msgs: seq<Message>) returns (events: seq<Delivered>, faults: seq<string>)
    ensures events == Valid(voucher, msgs) && faults == Malformed(voucher, msgs)
  {
    events, faults := [], [];
    for i := 0 to |msgs|
      invariant events == Valid(voucher, msgs[..i]) && faults == Malformed(voucher, msgs[..i])
    {
      var msg := msgs[i];
      assert msgs[..i + 1][..i] == msgs[..i];
      var uid := ParseUint(Get(msg.values, "user_id"));
      if uid.None? || uid.value == 0 || Get(msg.values, "voucher_id") != FormatUint(voucher) || |msg.values| != 4 {
        faults := faults + [msg.id];
        continue;
      }
      var generation := if "generation" in msg.values then Text(msg.values["generation"]) else Other;
      var stamp := if "accepted_ms" in msg.values then Text(msg.values["accepted_ms"]) else Other;
      var event := DecodeReply([Text("accepted"), Text(msg.id), generation, stamp], voucher, uid.value);
      if event.Err? {
        faults := faults + [msg.id];
        continue;
      }
      events := events + [event.value];
    }
    assert msgs[..|msgs|] == msgs;
  }

  // ---- Agreement --------------------------------------------------------------------------------------

  predicate Encodable(voucher: nat, e: Event) {
    && 0 < voucher <= MAX_UINT64 && 0 < e.user <= MAX_UINT64
    && ValidGeneration(e.generation) && 0 <= e.acceptedMs <= MAX_EXACT
  }

  lemma AcceptedDecodes(voucher: nat, e: Event)
    requires Encodable(voucher, e)
    ensures DecodeReply(ReserveReply(e), voucher, e.user) == Ok(Wire(voucher, e))
  {
    FormatRoundTrip(e.acceptedMs);
    IdTextIsStreamId(e.id);
    assert IsDigit(FormatUint(e.acceptedMs)[0]);
  }

  lemma EntryPairs(voucher: nat, e: Event)
    requires e.acceptedMs >= 0
    ensures var data := PairMap(EntryFields(voucher, e), 4);
      && DistinctNames(EntryFields(voucher, e), 4) && |data| == 4
      && {"voucher_id", "user_id", "generation", "accepted_ms"} <= data.Keys
      && data["voucher_id"] == FormatUint(voucher) && data["user_id"] == FormatUint(e.user)
      && data["generation"] == e.generation && data["accepted_ms"] == FormatUint(e.acceptedMs)
  {
    var f := EntryFields(voucher, e);
    var data := map["voucher_id" := f[1]]["user_id" := f[3]]["generation" := f[5]]["accepted_ms" := f[7]];
    assert |"voucher_id"| == 10 && |"user_id"| == 7 && |"generation"| == 10 && |"accepted_ms"| == 11;
    assert "voucher_id"[0] == 'v' && "generation"[0] == 'g';
    assert PairMap(f, 1) == map["voucher_id" := f[1]];
    assert PairMap(f, 2) == map["voucher_id" := f[1]]["user_id" := f[3]];
    assert PairMap(f, 3) == map["voucher_id" := f[1]]["user_id" := f[3]]["generation" := f[5]];
    assert PairMap(f, 4) == data;
    assert data.Keys == {"voucher_id", "user_id", "generation", "accepted_ms"};
  }

  // The reserve reply, the receipt reply and the stream message of an admitted event all decode to it,
  // for every non-zero 64-bit voucher and user and every exactly representable time.
  lemma EventRoutesAgree(voucher: nat, e: Event)
    requires Encodable(voucher, e)
    ensures DecodeReply(ReserveReply(e), voucher, e.user) == Ok(Wire(voucher, e))
    ensures DecodeReply(ReceiptReply(Some(IdText(e.id)), [EntryFields(voucher, e)], FormatUint(voucher), FormatUint(e.user), e.generation),
                        voucher, e.user) == Ok(Wire(voucher, e))
    ensures DecodeMessage(voucher, MessageOf(voucher, e)) == Some(Wire(voucher, e))
  {
    AcceptedDecodes(voucher, e);
    EntryPairs(voucher, e);
    IdTextIsStreamId(e.id);
    FormatRoundTrip(e.user);
  }

  // A batch of genuine entries decodes to exactly those events, in order and without faults.
  lemma {:induction false} BatchDecodes(voucher: nat, es: seq<Event>, msgs: seq<Message>)
    requires |msgs| == |es|
    requires forall i :: 0 <= i < |es| ==> Encodable(voucher, es[i]) && msgs[i] == MessageOf(voucher, es[i])
    ensures Malformed(voucher, msgs) == [] && |Valid(voucher, msgs)| == |es|
    ensures forall i :: 0 <= i < |es| ==> Valid(voucher, msgs)[i] == Wire(voucher, es[i])
  {
    hide DecodeMessage, DecodeReply, MessageOf, Wire, Encodable;
    if es != [] {
      BatchDecodes(voucher, es[..|es|-1], msgs[..|msgs|-1]);
      EventRoutesAgree(voucher, es[|es|-1]);
    }
  }
}
