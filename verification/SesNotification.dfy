/** SES notifications after JSON decoding, and their normal form. */
module SesNotification {
  import opened GoStrings
  import opened DeliveryStatus

  datatype EventKind =
    | KindDelivery | KindBounce | KindComplaint | KindDeliveryDelay
    | KindSend | KindReject | KindOther
  {
    /** Kinds that can only follow the provider taking the message. */
    predicate ImpliesProviderAcceptance() {
      !KindReject? && !KindOther?
    }

    predicate RequiresApplicableRecipient() {
      !KindSend? && !KindOther?
    }
  }

  datatype RecipientOutcome = RecipientOutcome(address: string, status: Status, detail: string, suppress: bool)

  datatype BounceType = NoBounceType | Permanent | Transient | Undetermined

  /** The sender of the notification stamps the provider event id and the time
      (0 is the unset time); parsing leaves them to the caller. */
  datatype Event = Event(
    kind: EventKind,
    sesMessageId: string,
    providerEventId: string,
    occurredAt: int,
    e2aMessageId: string,
    recipients: seq<RecipientOutcome>,
    bounceType: BounceType,
    bounceSubType: string)

  datatype Header = Header(name: string, value: string)
  datatype Diagnosed = Diagnosed(address: string, diagnostic: string)
  datatype BounceBody = BounceBody(bounceType: string, bounceSubType: string, recipients: seq<Diagnosed>)
  datatype ComplaintBody = ComplaintBody(recipients: seq<string>, feedbackType: string)

  datatype Notification = Notification(
    eventType: string,
    notificationType: string,
    messageId: string,
    destination: seq<string>,
    headers: seq<Header>,
    bounce: Option<BounceBody>,
    complaint: Option<ComplaintBody>,
    delivery: Option<seq<string>>,
    deliveryDelay: Option<seq<Diagnosed>>,
    reject: Option<string>)

  /** The marker header's name, lower-case for the case-blind comparison. */
  const MARKER_NAME := "x-e2a-message-id"

  function NormalizeBounceType(t: string): BounceType {
    var n := Norm(t);
    if n == "permanent" then Permanent
    else if n == "transient" then Transient
    else Undetermined
  }

  predicate IsAngle(c: char) { c == '<' || c == '>' }

  function TrimAngles(s: string): (r: string)
    ensures IsCore(s, r)
    decreases |s|
  {
    if s == "" then
      CoreOfItself(s);
      s
    else if IsAngle(s[0]) then
      var r := TrimAngles(s[1..]);
      CoreGrows(s, s[1..], r);
      r
    else if IsAngle(s[|s| - 1]) then
      var r := TrimAngles(s[..|s| - 1]);
      CoreGrows(s, s[..|s| - 1], r);
      r
    else
      CoreOfItself(s);
      s
  }

  /** The core of a text is what is left of it without the angle brackets around it. */
  ghost predicate IsCore(s: string, r: string) {
    && (r == "" || (!IsAngle(r[0]) && !IsAngle(r[|r| - 1])))
    && exists before, after :: s == before + r + after && AllAngles(before) && AllAngles(after)
  }

  predicate AllAngles(s: string) { forall i :: 0 <= i < |s| ==> s[i] == '<' || s[i] == '>' }

  lemma CoreOfItself(s: string)
    requires s == "" || (!IsAngle(s[0]) && !IsAngle(s[|s| - 1]))
    ensures IsCore(s, s)
  {
    assert s == "" + s + "" && AllAngles("");
  }

  lemma CoreGrows(s: string, t: string, r: string)
    requires s != "" && IsCore(t, r) && ((IsAngle(s[0]) && t == s[1..]) || (IsAngle(s[|s| - 1]) && t == s[..|s| - 1]))
    ensures IsCore(s, r)
  {
    var before, after :| t == before + r + after && AllAngles(before) && AllAngles(after);
    if IsAngle(s[0]) && t == s[1..] {
      assert s == ([s[0]] + before) + r + after;
      assert AllAngles([s[0]] + before);
    } else {
      assert s == before + r + (after + [s[|s| - 1]]);
      assert AllAngles(after + [s[|s| - 1]]);
    }
  }

  const MAX_E2A_MESSAGE_ID := 64

  predicate ValidE2AMessageId(s: string) {
    "msg_" <= s && 4 < |s| <= MAX_E2A_MESSAGE_ID
    && forall i :: 4 <= i < |s| ==>
      'a' <= s[i] <= 'z' || 'A' <= s[i] <= 'Z' || '0' <= s[i] <= '9' || s[i] == '_' || s[i] == '-'
  }

  /** A marker is `msg_` and one to sixty letters, digits, underscores and hyphens. */
  lemma MarkersAre(tail: string)
    ensures ValidE2AMessageId("msg_" + tail) <==>
      1 <= |tail| <= 60 && forall c :: c in tail ==>
        c == '_' || c == '-' || '0' <= c <= '9' || 'A' <= c <= 'Z' || 'a' <= c <= 'z'
    ensures ValidE2AMessageId(tail) ==> "msg_" <= tail
  {
    var s := "msg_" + tail;
    assert forall i :: 4 <= i < |s| ==> s[i] == tail[i - 4] && tail[i - 4] in tail;
    forall c | c in tail ensures exists i :: 4 <= i < |s| && s[i] == c {
      var i :| 0 <= i < |tail| && tail[i] == c;
      assert s[i + 4] == c;
    }
  }

  function StatusOfKind(k: EventKind): Status {
    match k
    case KindDelivery => Delivered
    case KindBounce => Bounced
    case KindComplaint => Complained
    case KindDeliveryDelay => Deferred
    case KindReject => Failed
    case KindSend => NoStatus
    case KindOther => NoStatus
  }

  /** Every outcome carries the status its kind stands for, in lookup form, and
      suppression follows from hard bounces and complaints alone. */
  predicate KindConsistent(ev: Event) {
    && (ev.kind.KindSend? || ev.kind.KindOther? ==> ev.recipients == [])
    && (ev.bounceType != NoBounceType ==> ev.kind.KindBounce?)
    && forall r :: r in ev.recipients ==>
         && r.status == StatusOfKind(ev.kind)
         && r.suppress == (ev.kind.KindComplaint? || (ev.kind.KindBounce? && ev.bounceType == Permanent))
         && Norm(r.address) == r.address
  }

  /** The marker is the first header of its name, whatever its letter case, without blanks and angle
      brackets around it. */
  ghost predicate IsMarker(headers: seq<Header>, marker: string) {
    || (marker == "" && forall j :: 0 <= j < |headers| ==> ToLower(headers[j].name) != "x-e2a-message-id")
    || exists i :: 0 <= i < |headers| && ToLower(headers[i].name) == "x-e2a-message-id"
         && (forall j :: 0 <= j < i ==> ToLower(headers[j].name) != "x-e2a-message-id")
         && IsCore(TrimSpace(headers[i].value), marker)
  }

  /** The outcomes list these addresses in lookup form, all with this status, detail and suppression. */
  predicate Lists(ev: Event, addresses: seq<string>, detail: string, status: Status, suppress: bool) {
    |ev.recipients| == |addresses| && forall i :: 0 <= i < |addresses| ==>
      ev.recipients[i] == RecipientOutcome(ToLower(TrimSpace(addresses[i])), status, detail, suppress)
  }

  /** The same for addresses with a diagnostic each. */
  predicate ListsDiagnosed(ev: Event, ds: seq<Diagnosed>, status: Status, suppress: bool) {
    |ev.recipients| == |ds| && forall i :: 0 <= i < |ds| ==>
      ev.recipients[i] == RecipientOutcome(ToLower(TrimSpace(ds[i].address)), status, ds[i].diagnostic, suppress)
  }

  /** A bounce suppresses its recipients exactly when its text says permanent, in any letter case and
      with any blanks around it. */
  predicate DescribesBounce(n: Notification, ev: Event) {
    match n.bounce
    case None => ev.recipients == [] && ev.bounceType == NoBounceType && ev.bounceSubType == ""
    case Some(b) =>
      var text := ToLower(TrimSpace(b.bounceType));
      && ListsDiagnosed(ev, b.recipients, Bounced, text == "permanent")
      && (ev.bounceType == Permanent <==> text == "permanent")
      && (ev.bounceType == Transient <==> text == "transient")
      && ev.bounceType != NoBounceType && ev.bounceSubType == b.bounceSubType
  }

  /** What a parsed event must say about its notification, type by type; the older field names the type
      only when the newer one is empty. */
  ghost predicate DescribesType(n: Notification, ev: Event) {
    var t := if n.eventType != "" then n.eventType else n.notificationType;
    if t == "Delivery" then
      && ev.kind == KindDelivery
      && var some := n.delivery.Some? && |n.delivery.value| > 0;
         Lists(ev, if some then n.delivery.value else n.destination, "", Delivered, false)
    else if t == "Bounce" then ev.kind == KindBounce && DescribesBounce(n, ev)
    else if t == "Complaint" then
      && ev.kind == KindComplaint
      && match n.complaint
         case None => ev.recipients == []
         case Some(c) => Lists(ev, c.recipients, c.feedbackType, Complained, true)
    else if t == "DeliveryDelay" then
      && ev.kind == KindDeliveryDelay
      && ListsDiagnosed(ev, if n.deliveryDelay.Some? then n.deliveryDelay.value else [], Deferred, false)
    else if t == "Send" then ev.kind == KindSend && ev.recipients == []
    else if t == "Reject" then
      && ev.kind == KindReject
      && Lists(ev, n.destination, if n.reject.Some? then n.reject.value else "", Failed, false)
    else ev.kind == KindOther && ev.recipients == []
  }

  ghost predicate Describes(n: Notification, ev: Event) {
    && ev.sesMessageId == n.messageId && IsMarker(n.headers, ev.e2aMessageId)
    && KindConsistent(ev) && DescribesType(n, ev)
  }

  predicate NamesMarker(h: Header) { ToLower(h.name) == MARKER_NAME }

  method FindMarker(headers: seq<Header>) returns (marker: string)
    ensures IsMarker(headers, marker)
  {
    for h := 0 to |headers|
      invariant forall j :: 0 <= j < h ==> !NamesMarker(headers[j])
    {
      if NamesMarker(headers[h]) {
        return TrimAngles(TrimSpace(headers[h].value));
      }
    }
    marker := "";
  }

  /** Outcomes of one status, in lookup form. */
  predicate AllLookedUp(recipients: seq<RecipientOutcome>, status: Status, suppress: bool) {
    forall r :: r in recipients ==> r.status == status && r.suppress == suppress && Norm(r.address) == r.address
  }

  /** Outcomes for addresses with a diagnostic each. */
  method DiagnosedOutcomes(ds: seq<Diagnosed>, status: Status, suppress: bool)
    returns (recipients: seq<RecipientOutcome>)
    ensures |recipients| == |ds| && forall i :: 0 <= i < |ds| ==>
      recipients[i] == RecipientOutcome(ToLower(TrimSpace(ds[i].address)), status, ds[i].diagnostic, suppress)
    ensures AllLookedUp(recipients, status, suppress)
  {
    recipients := [];
    for i := 0 to |ds|
      invariant |recipients| == i && forall j :: 0 <= j < i ==>
        recipients[j] == RecipientOutcome(ToLower(TrimSpace(ds[j].address)), status, ds[j].diagnostic, suppress)
      invariant AllLookedUp(recipients, status, suppress)
    {
      NormIdempotent(ds[i].address);
      recipients := recipients + [RecipientOutcome(Norm(ds[i].address), status, ds[i].diagnostic, suppress)];
    }
  }

  /** Outcomes for addresses that share what is said of them. */
  method PlainOutcomes(addresses: seq<string>, detail: string, status: Status, suppress: bool)
    returns (recipients: seq<RecipientOutcome>)
    ensures |recipients| == |addresses| && forall i :: 0 <= i < |addresses| ==>
      recipients[i] == RecipientOutcome(ToLower(TrimSpace(addresses[i])), status, detail, suppress)
    ensures AllLookedUp(recipients, status, suppress)
  {
    recipients := [];
    for i := 0 to |addresses|
      invariant |recipients| == i && forall j :: 0 <= j < i ==>
        recipients[j] == RecipientOutcome(ToLower(TrimSpace(addresses[j])), status, detail, suppress)
      invariant AllLookedUp(recipients, status, suppress)
    {
      NormIdempotent(addresses[i]);
      recipients := recipients + [RecipientOutcome(Norm(addresses[i]), status, detail, suppress)];
    }
  }

  /** The event before its type is looked at. */
  function Blank(n: Notification, marker: string): Event {
    Event(KindOther, n.messageId, "", 0, marker, [], NoBounceType, "")
  }

  method ParseBounce(n: Notification, marker: string) returns (ev: Event)
    ensures ev == Blank(n, marker).(kind := KindBounce, recipients := ev.recipients,
                                    bounceType := ev.bounceType, bounceSubType := ev.bounceSubType)
    ensures DescribesBounce(n, ev) && KindConsistent(ev)
  {
    ev := Blank(n, marker).(kind := KindBounce);
    if n.bounce.Some? {
      var b := n.bounce.value;
      var bounceType := NormalizeBounceType(b.bounceType);
      var recipients := DiagnosedOutcomes(b.recipients, Bounced, bounceType == Permanent);
      ev := ev.(bounceType := bounceType, bounceSubType := b.bounceSubType, recipients := recipients);
    }
  }

  method ParseSESNotification(n: Notification) returns (r: Result<Event>)
    ensures r.Ok? <==> n.messageId != ""
    ensures r.Ok? ==> Describes(n, r.value)
  {
    var typ := n.eventType;
    if typ == "" {
      typ := n.notificationType;
    }
    if n.messageId == "" {
      return Err("SES notification missing mail.messageId");
    }
    var marker := FindMarker(n.headers);
    var ev := Blank(n, marker);
    if typ == "Delivery" {
      var list := n.destination;
      if n.delivery.Some? && |n.delivery.value| > 0 {
        list := n.delivery.value;
      }
      var recipients := PlainOutcomes(list, "", Delivered, false);
      ev := ev.(kind := KindDelivery, recipients := recipients);
    } else if typ == "Bounce" {
      ev := ParseBounce(n, marker);
    } else if typ == "Complaint" {
      ev := ev.(kind := KindComplaint);
      if n.complaint.Some? {
        var recipients := PlainOutcomes(n.complaint.value.recipients, n.complaint.value.feedbackType, Complained, true);
        ev := ev.(recipients := recipients);
      }
    } else if typ == "DeliveryDelay" {
      ev := ev.(kind := KindDeliveryDelay);
      if n.deliveryDelay.Some? {
        var recipients := DiagnosedOutcomes(n.deliveryDelay.value, Deferred, false);
        ev := ev.(recipients := recipients);
      }
    } else if typ == "Send" {
      ev := ev.(kind := KindSend);
    } else if typ == "Reject" {
      var reason := "";
      if n.reject.Some? {
        reason := n.reject.value;
      }
      var recipients := PlainOutcomes(n.destination, reason, Failed, false);
      ev := ev.(kind := KindReject, recipients := recipients);
    }
    r := Ok(ev);
  }

  /** An event of an accepting kind reports only statuses that prove acceptance;
      a reject reports failures alone; only bounces and complaints suppress. */
  lemma ConsistentOutcomes(ev: Event, r: RecipientOutcome)
    requires KindConsistent(ev) && r in ev.recipients
    ensures r.status.Valid() && Reportable(r.status)
    ensures ev.kind.ImpliesProviderAcceptance() <==> r.status.ProvesProviderAcceptance()
    ensures r.status == Failed <==> ev.kind.KindReject?
    ensures r.suppress ==> r.status == Bounced || r.status == Complained
  {
  }

  lemma SpelledNames()
    ensures Norm("Permanent") == "permanent" && Norm("Transient") == "transient"
    ensures Norm("Undetermined") == "undetermined"
  {
    TrimOfTrimmed("Permanent");
    TrimOfTrimmed("Transient");
    TrimOfTrimmed("Undetermined");
  }

  function OneBounce(a: string, bounceType: string): Notification {
    var body := BounceBody(bounceType, "General", [Diagnosed(a, "550")]);
    Notification("Bounce", "", "m", [], [], Some(body), None, None, None, None)
  }

  /** The texts the provider sends, as they are spelled: only the permanent one suppresses. */
  lemma BouncesAsSpelled(ev: Event, a: string)
    requires Norm(a) == a
    ensures Describes(OneBounce(a, "Permanent"), ev) ==>
      ev.bounceType == Permanent && ev.recipients == [RecipientOutcome(a, Bounced, "550", true)]
    ensures Describes(OneBounce(a, "Transient"), ev) ==>
      ev.bounceType == Transient && ev.recipients == [RecipientOutcome(a, Bounced, "550", false)]
    ensures Describes(OneBounce(a, "Undetermined"), ev) ==>
      ev.bounceType == Undetermined && ev.recipients == [RecipientOutcome(a, Bounced, "550", false)]
  {
    SpelledNames();
  }
}
