/**
 The Discord message of a batch of alerts: one embed an alert, with every text cut to its own limit and all
 of them drawing on one budget of characters, and the sorting of alerts by category. Times, durations and the
 checked URL come in as text.
 */
module Notifier {
  import opened Wrappers

  const MAX_EMBEDS := 10
  const TITLE_LIMIT := 250
  const DESCRIPTION_LIMIT := 2000
  const FIELD_VALUE_LIMIT := 1000
  const MESSAGE_CHAR_LIMIT := 6000
  const LONGEST_FIELD_NAME := 9

  const COLOR_RED := 0xED4245
  const COLOR_GREEN := 0x57F287

  const ELLIPSIS := "\U{2026}"
  const CAT_RECOVERIES := "recoveries"
  const CAT_DEFAULT := "default"

  /** `started` is empty for the zero time. */
  datatype Alert = Alert(
    status: string, labels: map<string, string>, annotations: map<string, string>,
    url: string, started: string, ended: string, lasted: string)

  datatype Payload = Payload(status: string, alerts: seq<Alert>)
  datatype Field = Field(name: string, value: string, inline: bool)
  datatype Embed = Embed(title: string, description: string, color: int, url: string, timestamp: string, fields: seq<Field>)

  /** Go's rune slices; below two runes of room only the ellipsis is left. */
  function Truncated(s: string, max: int): string {
    if |s| <= max then s else if max <= 1 then ELLIPSIS else s[..max - 1] + ELLIPSIS
  }

  /** The result fits whenever there is room for a character, and is the text itself exactly if that fits. */
  lemma TruncatedFits(s: string, max: int)
    requires 0 < max
    ensures |Truncated(s, max)| == if |s| <= max then |s| else max
    ensures Truncated(s, max) == s <==> |s| <= max
    ensures |s| > max ==> Truncated(s, max) == s[..max - 1] + ELLIPSIS
  {
  }

  /** ---------- The texts of an alert ---------- */

  function LabelValue(a: Alert, key: string, fallback: string): string {
    if key in a.labels && a.labels[key] != "" then a.labels[key] else fallback
  }

  function AnnotationValue(a: Alert, key: string): string {
    if key in a.annotations then a.annotations[key] else ""
  }

  function StatusOf(a: Alert, payloadStatus: string): string { if a.status == "" then payloadStatus else a.status }

  predicate IsResolved(a: Alert, payloadStatus: string) { StatusOf(a, payloadStatus) == "resolved" }

  function TitleOf(a: Alert, payloadStatus: string): string {
    var name := LabelValue(a, "alertname", "Unknown Alert");
    if IsResolved(a, payloadStatus) then "\U{1F7E2} " + name + " (resolved)" else "\U{1F534} " + name
  }

  function SummaryOf(a: Alert): string {
    if AnnotationValue(a, "summary") != "" then AnnotationValue(a, "summary")
    else if AnnotationValue(a, "description") != "" then AnnotationValue(a, "description")
    else "No summary provided"
  }

  function Added(fields: seq<Field>, name: string, value: string, inline: bool): seq<Field> {
    if value == "" then fields else fields + [Field(name, Truncated(value, FIELD_VALUE_LIMIT), inline)]
  }

  function FieldsOf(a: Alert, resolved: bool): seq<Field> {
    var fields := Added([], "Service", LabelValue(a, "service", ""), true);
    var fields := Added(fields, "Severity", LabelValue(a, "severity", ""), true);
    var fields := Added(fields, "Instance", LabelValue(a, "instance", ""), false);
    var fields := Added(fields, "Pod", LabelValue(a, "pod", ""), true);
    var fields := Added(fields, "Namespace", LabelValue(a, "namespace", ""), true);
    var fields := Added(fields, "Started", a.started, false);
    if resolved then Added(Added(fields, "Resolved", a.ended, true), "Duration", a.lasted, true) else fields
  }

  /** All an embed shows of an alert, before the budget is applied. */
  datatype Rendering = Rendering(
    title: string, summary: string, color: int, url: string, timestamp: string, fields: seq<Field>)

  function RenderingOf(a: Alert, payloadStatus: string): Rendering {
    var resolved := IsResolved(a, payloadStatus);
    Rendering(TitleOf(a, payloadStatus), SummaryOf(a), if resolved then COLOR_GREEN else COLOR_RED,
              a.url, a.started, FieldsOf(a, resolved))
  }

  method Render(a: Alert, payloadStatus: string) returns (r: Rendering)
    ensures r == RenderingOf(a, payloadStatus)
  {
    var status := if a.status == "" then payloadStatus else a.status;
    var resolved := status == "resolved";
    var alertname := LabelValue(a, "alertname", "Unknown Alert");
    var summary := AnnotationValue(a, "summary");
    if summary == "" {
      summary := AnnotationValue(a, "description");
    }
    if summary == "" {
      summary := "No summary provided";
    }
    var color, title := COLOR_RED, "\U{1F534} " + alertname;
    if resolved {
      color, title := COLOR_GREEN, "\U{1F7E2} " + alertname + " (resolved)";
    }
    r := Rendering(title, summary, color, a.url, a.started, FieldsOf(a, resolved));
  }

  /** ---------- One embed ---------- */

  datatype Cut<T> = Cut(result: T, remaining: int)

  function Lesser(a: int, b: int): int { if a <= b then a else b }

  function CutText(s: string, limit: int, remaining: int): Cut<string> {
    if remaining <= 0 then Cut("", remaining) else
    var t := Truncated(s, Lesser(limit, remaining));
    Cut(t, remaining - |t|)
  }

  function CutFields(fields: seq<Field>, remaining: int): Cut<seq<Field>>
    decreases |fields|
  {
    if fields == [] then Cut([], remaining) else
    var f := fields[0];
    if remaining <= 0 || remaining <= |f.name| then Cut([], remaining) else
    var v := Truncated(f.value, Lesser(remaining - |f.name|, FIELD_VALUE_LIMIT));
    if v == "" then Cut([], remaining) else
    var rest := CutFields(fields[1..], remaining - |f.name| - |v|);
    Cut([f.(value := v)] + rest.result, rest.remaining)
  }

  function CutEmbed(r: Rendering, remaining: int): Cut<Embed> {
    var title := CutText(r.title, TITLE_LIMIT, remaining);
    var summary := CutText(r.summary, DESCRIPTION_LIMIT, title.remaining);
    var fields := CutFields(r.fields, summary.remaining);
    Cut(Embed(title.result, summary.result, r.color, r.url, r.timestamp, fields.result), fields.remaining)
  }

  predicate IsEmpty(e: Embed) { e.title == "" && e.description == "" && e.fields == [] }

  function CutMessage(rs: seq<Rendering>, remaining: int): Cut<seq<Embed>>
    decreases |rs|
  {
    if rs == [] then Cut([], remaining) else
    var c := CutEmbed(rs[0], remaining);
    if IsEmpty(c.result) then Cut([], c.remaining) else
    var rest := CutMessage(rs[1..], c.remaining);
    Cut([c.result] + rest.result, rest.remaining)
  }

  function PayloadStatus(p: Payload): string { if p.status == "" then "firing" else p.status }

  function Renderings(alerts: seq<Alert>, payloadStatus: string): seq<Rendering> {
    seq(|alerts|, i requires 0 <= i < |alerts| => RenderingOf(alerts[i], payloadStatus))
  }

  function Shown(p: Payload): seq<Rendering> {
    Renderings(if MAX_EMBEDS < |p.alerts| then p.alerts[..MAX_EMBEDS] else p.alerts, PayloadStatus(p))
  }

  function Message(p: Option<Payload>): seq<Embed> {
    if p.None? then [] else CutMessage(Shown(p.value), MESSAGE_CHAR_LIMIT).result
  }

  method KeepFields(fields: seq<Field>, budget: int) returns (kept: seq<Field>, remaining: int)
    ensures Cut(kept, remaining) == CutFields(fields, budget)
  {
    kept, remaining := [], budget;
    for i := 0 to |fields|
      invariant CutFields(fields, budget).result == kept + CutFields(fields[i..], remaining).result
      invariant CutFields(fields, budget).remaining == CutFields(fields[i..], remaining).remaining
    {
      var f := fields[i];
      assert fields[i..][0] == f && fields[i..][1..] == fields[i + 1..] && kept + [] == kept;
      if remaining <= 0 || |f.name| >= remaining {
        return;
      }
      var valueBudget := remaining - |f.name|;
      if valueBudget > FIELD_VALUE_LIMIT {
        valueBudget := FIELD_VALUE_LIMIT;
      }
      var v := Truncated(f.value, valueBudget);
      if v == "" {
        return;
      }
      ghost var rest := CutFields(fields[i + 1..], remaining - (|f.name| + |v|)).result;
      assert kept + ([f.(value := v)] + rest) == kept + [f.(value := v)] + rest;
      kept := kept + [Field(f.name, v, f.inline)];
      remaining := remaining - (|f.name| + |v|);
    }
    assert fields[|fields|..] == [] && kept + [] == kept;
  }

  /** The budget applied to one alert's texts. */
  method FitEmbed(r: Rendering, budget: int) returns (embed: Embed, remaining: int)
    ensures embed == CutEmbed(r, budget).result && remaining == CutEmbed(r, budget).remaining
  {
    remaining := budget;
    var title, summary := "", "";
    if remaining > 0 {
      title := Truncated(r.title, if remaining < TITLE_LIMIT then remaining else TITLE_LIMIT);
      remaining := remaining - |title|;
    }
    assert Cut(title, remaining) == CutText(r.title, TITLE_LIMIT, budget);
    ghost var left := remaining;
    if remaining > 0 {
      summary := Truncated(r.summary, if remaining < DESCRIPTION_LIMIT then remaining else DESCRIPTION_LIMIT);
      remaining := remaining - |summary|;
    }
    assert Cut(summary, remaining) == CutText(r.summary, DESCRIPTION_LIMIT, left);
    var kept;
    kept, remaining := KeepFields(r.fields, remaining);
    embed := Embed(title, summary, r.color, r.url, r.timestamp, kept);
  }

  method BuildEmbed(a: Alert, payloadStatus: string, budget: int) returns (embed: Embed, remaining: int)
    ensures embed == CutEmbed(RenderingOf(a, payloadStatus), budget).result
    ensures remaining == CutEmbed(RenderingOf(a, payloadStatus), budget).remaining
  {
    var r := Render(a, payloadStatus);
    embed, remaining := FitEmbed(r, budget);
  }

  /** The loop over the alerts, with the budget they share. */
  method EmbedsWithin(alerts: seq<Alert>, payloadStatus: string, budget: int) returns (embeds: seq<Embed>)
    ensures embeds == CutMessage(Renderings(alerts, payloadStatus), budget).result
  {
    ghost var rs := Renderings(alerts, payloadStatus);
    embeds := [];
    var remaining := budget;
    for i := 0 to |alerts|
      invariant CutMessage(rs, budget).result == embeds + CutMessage(rs[i..], remaining).result
    {
      NextEmbed(rs, i, embeds, remaining);
      var e;
      e, remaining := BuildEmbed(alerts[i], payloadStatus, remaining);
      if IsEmpty(e) {
        return;
      }
      embeds := embeds + [e];
    }
  }

  method BuildMessage(p: Option<Payload>) returns (embeds: seq<Embed>)
    ensures embeds == Message(p)
  {
    if p == None {
      return [];
    }
    var alerts := p.value.alerts;
    if MAX_EMBEDS < |alerts| {
      alerts := alerts[..MAX_EMBEDS];
    }
    embeds := EmbedsWithin(alerts, PayloadStatus(p.value), MESSAGE_CHAR_LIMIT);
  }

  lemma NextEmbed(rs: seq<Rendering>, i: nat, before: seq<Embed>, remaining: int)
    requires i < |rs|
    ensures var c := CutEmbed(rs[i], remaining);
      before + CutMessage(rs[i..], remaining).result ==
        if IsEmpty(c.result) then before else before + [c.result] + CutMessage(rs[i + 1..], c.remaining).result
  {
    assert rs[i..][0] == rs[i] && rs[i..][1..] == rs[i + 1..];
  }

  /** ---------- The budget ---------- */

  function FieldChars(fields: seq<Field>): nat {
    if fields == [] then 0 else |fields[0].name| + |fields[0].value| + FieldChars(fields[1..])
  }

  function EmbedChars(e: Embed): nat { |e.title| + |e.description| + FieldChars(e.fields) }

  function Chars(embeds: seq<Embed>): nat { if embeds == [] then 0 else EmbedChars(embeds[0]) + Chars(embeds[1..]) }

  predicate FieldWithinCap(f: Field) { 0 < |f.value| <= 1000 && |f.name| <= 9 }

  predicate WithinCaps(e: Embed) {
    |e.title| <= 250 && |e.description| <= 2000 && AllWithinCap(e.fields)
  }

  predicate AllWithinCap(fields: seq<Field>) { forall i :: 0 <= i < |fields| ==> FieldWithinCap(fields[i]) }

  lemma AddedIsWithinCap(fields: seq<Field>, name: string, value: string, inline: bool)
    requires AllWithinCap(fields) && |name| <= LONGEST_FIELD_NAME
    ensures AllWithinCap(Added(fields, name, value, inline))
  {
  }

  lemma FieldsAreWithinCap(a: Alert, resolved: bool)
    ensures AllWithinCap(FieldsOf(a, resolved))
  {
    var f1 := Added([], "Service", LabelValue(a, "service", ""), true);
    var f2 := Added(f1, "Severity", LabelValue(a, "severity", ""), true);
    var f3 := Added(f2, "Instance", LabelValue(a, "instance", ""), false);
    var f4 := Added(f3, "Pod", LabelValue(a, "pod", ""), true);
    var f5 := Added(f4, "Namespace", LabelValue(a, "namespace", ""), true);
    var f6 := Added(f5, "Started", a.started, false);
    AddedIsWithinCap([], "Service", LabelValue(a, "service", ""), true);
    AddedIsWithinCap(f1, "Severity", LabelValue(a, "severity", ""), true);
    AddedIsWithinCap(f2, "Instance", LabelValue(a, "instance", ""), false);
    AddedIsWithinCap(f3, "Pod", LabelValue(a, "pod", ""), true);
    AddedIsWithinCap(f4, "Namespace", LabelValue(a, "namespace", ""), true);
    AddedIsWithinCap(f5, "Started", a.started, false);
    AddedIsWithinCap(f6, "Resolved", a.ended, true);
    AddedIsWithinCap(Added(f6, "Resolved", a.ended, true), "Duration", a.lasted, true);
  }

  /** What is emitted and what remains of the budget always add up, and the budget is never overdrawn. */
  lemma {:induction false} FieldsSpend(fields: seq<Field>, remaining: int)
    requires 0 <= remaining && AllWithinCap(fields)
    ensures var c := CutFields(fields, remaining);
      && 0 <= c.remaining && FieldChars(c.result) + c.remaining == remaining
      && |c.result| <= |fields|
      && AllWithinCap(c.result)
    decreases |fields|
  {
    if fields != [] && |fields[0].name| < remaining {
      var f := fields[0];
      var v := Truncated(f.value, Lesser(remaining - |f.name|, FIELD_VALUE_LIMIT));
      TruncatedFits(f.value, Lesser(remaining - |f.name|, FIELD_VALUE_LIMIT));
      FieldsSpend(fields[1..], remaining - |f.name| - |v|);
      assert CutFields(fields, remaining).result[1..] == CutFields(fields[1..], remaining - |f.name| - |v|).result;
    }
  }

  predicate Sound(r: Rendering) { r.title != "" && r.summary != "" && AllWithinCap(r.fields) }

  predicate AllSound(rs: seq<Rendering>) { forall i :: 0 <= i < |rs| ==> Sound(rs[i]) }

  lemma RenderingIsSound(a: Alert, payloadStatus: string)
    ensures Sound(RenderingOf(a, payloadStatus))
  {
    FieldsAreWithinCap(a, IsResolved(a, payloadStatus));
  }

  lemma ShownIsSound(p: Payload)
    ensures AllSound(Shown(p)) && |Shown(p)| == if 10 < |p.alerts| then 10 else |p.alerts|
  {
    forall i | 0 <= i < |Shown(p)|
      ensures Sound(Shown(p)[i])
    {
      RenderingIsSound(p.alerts[i], PayloadStatus(p));
    }
  }

  lemma TextSpends(s: string, limit: int, remaining: int)
    requires 0 <= remaining && 0 < limit && s != ""
    ensures var c := CutText(s, limit, remaining);
      && 0 <= c.remaining && |c.result| + c.remaining == remaining
      && |c.result| <= limit && (c.result == "" <==> remaining == 0)
  {
    if 0 < remaining { TruncatedFits(s, Lesser(limit, remaining)); }
  }

  lemma EmbedSpends(r: Rendering, remaining: int)
    requires 0 <= remaining && Sound(r)
    ensures var c := CutEmbed(r, remaining);
      && 0 <= c.remaining && EmbedChars(c.result) + c.remaining == remaining
      && WithinCaps(c.result) && (IsEmpty(c.result) <==> remaining == 0)
  {
    TextSpends(r.title, TITLE_LIMIT, remaining);
    var title := CutText(r.title, TITLE_LIMIT, remaining);
    TextSpends(r.summary, DESCRIPTION_LIMIT, title.remaining);
    FieldsSpend(r.fields, CutText(r.summary, DESCRIPTION_LIMIT, title.remaining).remaining);
  }

  lemma {:induction false} MessageSpends(rs: seq<Rendering>, remaining: int)
    requires 0 <= remaining && AllSound(rs)
    ensures var c := CutMessage(rs, remaining);
      && 0 <= c.remaining && Chars(c.result) + c.remaining == remaining && |c.result| <= |rs|
      && (forall i :: 0 <= i < |c.result| ==> WithinCaps(c.result[i]) && !IsEmpty(c.result[i]))
    decreases |rs|
  {
    if rs != [] {
      var c := CutEmbed(rs[0], remaining);
      EmbedSpends(rs[0], remaining);
      if !IsEmpty(c.result) {
        MessageSpends(rs[1..], c.remaining);
        assert CutMessage(rs, remaining).result[1..] == CutMessage(rs[1..], c.remaining).result;
      }
    }
  }

  /** Every message meets the webhook's limits. */
  lemma MessageWithinLimits(p: Option<Payload>)
    ensures |Message(p)| <= 10 && Chars(Message(p)) <= 6000
    ensures forall i :: 0 <= i < |Message(p)| ==> WithinCaps(Message(p)[i]) && !IsEmpty(Message(p)[i])
  {
    if p.Some? {
      ShownIsSound(p.value);
      MessageSpends(Shown(p.value), MESSAGE_CHAR_LIMIT);
    }
  }

  /** ---------- What is lost to the budget ---------- */

  /** An alert on its own, each text cut to its own limit alone. */
  function WholeEmbed(r: Rendering): Embed {
    Embed(Truncated(r.title, 250), Truncated(r.summary, 2000), r.color, r.url, r.timestamp, r.fields)
  }

  function Whole(rs: seq<Rendering>): seq<Embed> {
    if rs == [] then [] else [WholeEmbed(rs[0])] + Whole(rs[1..])
  }

  lemma TextCutOnlyWhenSpent(s: string, limit: int, remaining: int)
    requires 0 <= remaining && 0 < limit && s != ""
    ensures var c := CutText(s, limit, remaining);
      && (|Truncated(s, limit)| <= remaining <==> c.result == Truncated(s, limit))
      && (c.result != Truncated(s, limit) ==> c.remaining == 0)
  {
    TruncatedFits(s, limit);
    if 0 < remaining { TruncatedFits(s, Lesser(limit, remaining)); }
  }

  lemma FirstFieldCut(fields: seq<Field>, remaining: int)
    requires fields != [] && AllWithinCap(fields) && |fields[0].name| < remaining
    ensures var f := fields[0];
      var v := Truncated(f.value, Lesser(remaining - |f.name|, FIELD_VALUE_LIMIT));
      var rest := CutFields(fields[1..], remaining - |f.name| - |v|);
      && CutFields(fields, remaining).remaining == rest.remaining
      && (CutFields(fields, remaining).result == fields <==> v == f.value && rest.result == fields[1..])
      && (v == f.value <==> |f.name| + |f.value| <= remaining)
      && (v != f.value ==> |f.name| + |v| == remaining)
  {
    var f, max := fields[0], Lesser(remaining - |fields[0].name|, FIELD_VALUE_LIMIT);
    var v := Truncated(f.value, max);
    TruncatedFits(f.value, max);
    var rest := CutFields(fields[1..], remaining - |f.name| - |v|);
    assert CutFields(fields, remaining).result == [f.(value := v)] + rest.result;
  }

  lemma {:induction false} FieldsCutOnlyWhenSpent(fields: seq<Field>, remaining: int)
    requires 0 <= remaining && AllWithinCap(fields)
    ensures var c := CutFields(fields, remaining);
      && (FieldChars(fields) <= remaining <==> c.result == fields)
      && (c.result != fields ==> c.remaining <= LONGEST_FIELD_NAME)
    decreases |fields|
  {
    FieldsSpend(fields, remaining);
    if fields != [] && |fields[0].name| < remaining {
      var f := fields[0];
      var v := Truncated(f.value, Lesser(remaining - |f.name|, FIELD_VALUE_LIMIT));
      FirstFieldCut(fields, remaining);
      FieldsSpend(fields[1..], remaining - |f.name| - |v|);
      FieldsCutOnlyWhenSpent(fields[1..], remaining - |f.name| - |v|);
    }
  }

  /** An embed is whole exactly if it fits into what remains; if it is not, at most the length of a field's
      name is left over. */
  lemma EmbedCutOnlyWhenSpent(r: Rendering, remaining: int)
    requires 0 <= remaining && Sound(r)
    ensures var c, w := CutEmbed(r, remaining), WholeEmbed(r);
      && (EmbedChars(w) <= remaining <==> c.result == w)
      && (c.result != w ==> c.remaining <= LONGEST_FIELD_NAME)
  {
    var title := CutText(r.title, TITLE_LIMIT, remaining);
    var summary := CutText(r.summary, DESCRIPTION_LIMIT, title.remaining);
    EmbedSpends(r, remaining);
    TextSpends(r.title, TITLE_LIMIT, remaining);
    TextCutOnlyWhenSpent(r.title, TITLE_LIMIT, remaining);
    TextSpends(r.summary, DESCRIPTION_LIMIT, title.remaining);
    TextCutOnlyWhenSpent(r.summary, DESCRIPTION_LIMIT, title.remaining);
    FieldsSpend(r.fields, summary.remaining);
    FieldsCutOnlyWhenSpent(r.fields, summary.remaining);
  }

  lemma {:induction false} MessageCutOnlyWhenSpent(rs: seq<Rendering>, remaining: int)
    requires 0 <= remaining && AllSound(rs)
    ensures var c := CutMessage(rs, remaining);
      && (Chars(Whole(rs)) <= remaining <==> c.result == Whole(rs))
      && (c.result != Whole(rs) ==> c.remaining <= LONGEST_FIELD_NAME)
    decreases |rs|
  {
    MessageSpends(rs, remaining);
    if rs != [] {
      var c := CutEmbed(rs[0], remaining);
      EmbedSpends(rs[0], remaining);
      EmbedCutOnlyWhenSpent(rs[0], remaining);
      assert Whole(rs)[1..] == Whole(rs[1..]);
      if !IsEmpty(c.result) {
        MessageCutOnlyWhenSpent(rs[1..], c.remaining);
        MessageSpends(rs[1..], c.remaining);
        var rest := CutMessage(rs[1..], c.remaining).result;
        assert CutMessage(rs, remaining).result == [c.result] + rest;
        assert CutMessage(rs, remaining).result == Whole(rs) <==> c.result == WholeEmbed(rs[0]) && rest == Whole(rs[1..]);
      }
    }
  }

  /** The message is the whole rendering of the alerts shown exactly if that fits the budget; and text is
      lost to the budget only when all but a field name's length of it is used. */
  lemma TextIsLostOnlyWhenFull(p: Payload)
    ensures Message(Some(p)) == Whole(Shown(p)) <==> Chars(Whole(Shown(p))) <= 6000
    ensures Message(Some(p)) != Whole(Shown(p)) ==> 5991 <= Chars(Message(Some(p)))
  {
    ShownIsSound(p);
    MessageSpends(Shown(p), MESSAGE_CHAR_LIMIT);
    MessageCutOnlyWhenSpent(Shown(p), MESSAGE_CHAR_LIMIT);
  }

  lemma {:induction false} CutIsPrefix(rs: seq<Rendering>, more: seq<Rendering>, remaining: int)
    ensures CutMessage(rs, remaining).result <= CutMessage(rs + more, remaining).result
    decreases |rs|
  {
    if rs != [] {
      assert (rs + more)[1..] == rs[1..] + more;
      CutIsPrefix(rs[1..], more, CutEmbed(rs[0], remaining).remaining);
    }
  }

  /** Later alerts take nothing from earlier ones: the first k alerts alone give the start of the message. */
  lemma EarlierAlertsComeFirst(p: Payload, k: nat)
    requires k <= |p.alerts|
    ensures Message(Some(p.(alerts := p.alerts[..k]))) <= Message(Some(p))
  {
    var some, all := Shown(p.(alerts := p.alerts[..k])), Shown(p);
    assert all == some + all[|some|..];
    CutIsPrefix(some, all[|some|..], MESSAGE_CHAR_LIMIT);
  }

  /** ---------- What an alert says ---------- */

  /** The alert's own status counts, and the payload's only if it has none. */
  predicate ShownResolved(a: Alert, payloadStatus: string) {
    a.status == "resolved" || (a.status == "" && payloadStatus == "resolved")
  }

  /** The rows with something to show, each value cut to 1000 characters. */
  function Kept(rows: seq<Field>): seq<Field> {
    if rows == [] then [] else
    var last := rows[|rows| - 1];
    Kept(rows[..|rows| - 1]) +
      if last.value == "" then [] else [last.(value := if |last.value| <= 1000 then last.value else last.value[..999] + "\U{2026}")]
  }

  lemma KeptOneMore(rows: seq<Field>, name: string, value: string, inline: bool)
    ensures Kept(rows + [Field(name, value, inline)]) == Added(Kept(rows), name, value, inline)
  {
    assert (rows + [Field(name, value, inline)])[..|rows|] == rows;
  }

  function LabelOr(a: Alert, key: string): string { if key in a.labels then a.labels[key] else "" }

  /** The rows of an embed in their order. */
  function RowsOf(a: Alert, resolved: bool): seq<Field> {
    [Field("Service", LabelOr(a, "service"), true), Field("Severity", LabelOr(a, "severity"), true),
     Field("Instance", LabelOr(a, "instance"), false), Field("Pod", LabelOr(a, "pod"), true),
     Field("Namespace", LabelOr(a, "namespace"), true), Field("Started", a.started, false)] +
    if resolved then [Field("Resolved", a.ended, true), Field("Duration", a.lasted, true)] else []
  }

  lemma FirstRowsKept(a: Alert)
    ensures FieldsOf(a, false) == Kept(RowsOf(a, false))
  {
    var r1 := [Field("Service", LabelOr(a, "service"), true)];
    var r2 := r1 + [Field("Severity", LabelOr(a, "severity"), true)];
    var r3 := r2 + [Field("Instance", LabelOr(a, "instance"), false)];
    var r4 := r3 + [Field("Pod", LabelOr(a, "pod"), true)];
    var r5 := r4 + [Field("Namespace", LabelOr(a, "namespace"), true)];
    KeptOneMore([], "Service", LabelOr(a, "service"), true);
    KeptOneMore(r1, "Severity", LabelOr(a, "severity"), true);
    KeptOneMore(r2, "Instance", LabelOr(a, "instance"), false);
    KeptOneMore(r3, "Pod", LabelOr(a, "pod"), true);
    KeptOneMore(r4, "Namespace", LabelOr(a, "namespace"), true);
    KeptOneMore(r5, "Started", a.started, false);
    assert [] + r1 == r1;
    assert r5 + [Field("Started", a.started, false)] == RowsOf(a, false);
  }

  lemma FieldsShow(a: Alert, resolved: bool)
    ensures FieldsOf(a, resolved) == Kept(RowsOf(a, resolved))
  {
    FirstRowsKept(a);
    if resolved {
      var rows := RowsOf(a, false) + [Field("Resolved", a.ended, true)];
      KeptOneMore(RowsOf(a, false), "Resolved", a.ended, true);
      KeptOneMore(rows, "Duration", a.lasted, true);
      assert rows + [Field("Duration", a.lasted, true)] == RowsOf(a, true);
    }
  }

  /** What an alert's status, labels and annotations make of its embed, where there is room for it: the mark and the
      colour say whether it is resolved, and the text is the summary, else the description, else a stock phrase. */
  lemma AlertShows(a: Alert, payloadStatus: string)
    ensures var r := RenderingOf(a, payloadStatus);
      var resolved := ShownResolved(a, payloadStatus);
      var alertname := if LabelOr(a, "alertname") == "" then "Unknown Alert" else a.labels["alertname"];
      var summary := if "summary" in a.annotations then a.annotations["summary"] else "";
      var description := if "description" in a.annotations then a.annotations["description"] else "";
      && r.color == (if resolved then 0x57F287 else 0xED4245)
      && r.title == (if resolved then "\U{1F7E2} " + alertname + " (resolved)" else "\U{1F534} " + alertname)
      && r.summary == (if summary != "" then summary else if description != "" then description else "No summary provided")
      && r.url == a.url && r.timestamp == a.started
      && r.fields == Kept(RowsOf(a, resolved))
  {
    FieldsShow(a, IsResolved(a, payloadStatus));
  }

  /** ---------- Categories ---------- */

  function AlertCategory(a: Alert, payloadStatus: string): string {
    if IsResolved(a, payloadStatus) then CAT_RECOVERIES
    else LabelValue(a, "category", CAT_DEFAULT)
  }

  /** In plain words: of a resolved alert "recoveries", else its category label, else "default". */
  lemma CategoryIs(a: Alert, payloadStatus: string)
    ensures var cat := AlertCategory(a, payloadStatus);
      && (ShownResolved(a, payloadStatus) ==> cat == "recoveries")
      && (!ShownResolved(a, payloadStatus) && "category" in a.labels && a.labels["category"] != "" ==>
            cat == a.labels["category"])
      && (!ShownResolved(a, payloadStatus) && ("category" in a.labels ==> a.labels["category"] == "") ==> cat == "default")
  {
  }

  function Categories(alerts: seq<Alert>, payloadStatus: string): seq<string> {
    seq(|alerts|, i requires 0 <= i < |alerts| => AlertCategory(alerts[i], payloadStatus))
  }

  /** The items of one category, in their order. */
  function OfCategory<T, C(==)>(items: seq<T>, cats: seq<C>, cat: C): seq<T>
    requires |cats| == |items|
  {
    if items == [] then [] else
    var n := |items| - 1;
    OfCategory(items[..n], cats[..n], cat) + if cats[n] == cat then [items[n]] else []
  }

  lemma OneMoreItem<T, C>(items: seq<T>, cats: seq<C>, i: nat, cat: C)
    requires |cats| == |items| && i < |items|
    ensures OfCategory(items[..i + 1], cats[..i + 1], cat) ==
      OfCategory(items[..i], cats[..i], cat) + if cats[i] == cat then [items[i]] else []
  {
    assert items[..i + 1][..i] == items[..i] && cats[..i + 1][..i] == cats[..i];
  }

  /** A group for each of the categories, holding its items. */
  ghost predicate Grouped<T, C>(groups: map<C, seq<T>>, items: seq<T>, cats: seq<C>)
    requires |cats| == |items|
  {
    groups.Keys == (set cat | cat in cats) && forall cat <- groups :: groups[cat] == OfCategory(items, cats, cat)
  }

  lemma OneMoreGrouped<T, C>(groups: map<C, seq<T>>, items: seq<T>, cats: seq<C>, i: nat)
    requires |cats| == |items| && i < |items| && Grouped(groups, items[..i], cats[..i])
    ensures Grouped(groups[cats[i] := (if cats[i] in groups then groups[cats[i]] else []) + [items[i]]],
                    items[..i + 1], cats[..i + 1])
  {
    assert cats[..i + 1] == cats[..i] + [cats[i]];
    var more := groups[cats[i] := (if cats[i] in groups then groups[cats[i]] else []) + [items[i]]];
    if cats[i] !in groups {
      NoneOfCategory(items[..i], cats[..i], cats[i]);
    }
    forall cat <- more
      ensures more[cat] == OfCategory(items[..i + 1], cats[..i + 1], cat)
    {
      OneMoreItem(items, cats, i, cat);
    }
  }

  /** The loop that appends each alert to the group of its category. */
  method Group<T, C(==)>(items: seq<T>, cats: seq<C>) returns (groups: map<C, seq<T>>)
    requires |cats| == |items|
    ensures forall cat <- cats :: cat in groups
    ensures forall cat <- groups :: cat in cats && groups[cat] == OfCategory(items, cats, cat)
  {
    groups := map[];
    for i := 0 to |items|
      invariant Grouped(groups, items[..i], cats[..i])
    {
      OneMoreGrouped(groups, items, cats, i);
      groups := groups[cats[i] := (if cats[i] in groups then groups[cats[i]] else []) + [items[i]]];
    }
    assert items[..|items|] == items && cats[..|items|] == cats;
  }

  lemma {:induction false} NoneOfCategory<T, C>(items: seq<T>, cats: seq<C>, cat: C)
    requires |cats| == |items| && cat !in cats
    ensures OfCategory(items, cats, cat) == []
    decreases |items|
  {
    if items != [] {
      NoneOfCategory(items[..|items| - 1], cats[..|items| - 1], cat);
    }
  }

  /** A group for every category that has alerts, and in it those alerts in their order. */
  method GroupByCategory(p: Payload) returns (groups: map<string, seq<Alert>>)
    ensures var cats := Categories(p.alerts, PayloadStatus(p));
      && (forall cat <- cats :: cat in groups)
      && (forall cat <- groups :: cat in cats && groups[cat] == OfCategory(p.alerts, cats, cat))
  {
    groups := Group(p.alerts, Categories(p.alerts, PayloadStatus(p)));
  }

  lemma {:induction false} CategoryCounts<T, C>(items: seq<T>, cats: seq<C>, cat: C, a: T, catOfA: C)
    requires |cats| == |items| && forall i :: 0 <= i < |items| && items[i] == a ==> cats[i] == catOfA
    ensures multiset(OfCategory(items, cats, cat))[a] == if catOfA == cat then multiset(items)[a] else 0
    decreases |items|
  {
    if items != [] {
      var n := |items| - 1;
      CategoryCounts(items[..n], cats[..n], cat, a, catOfA);
      assert items == items[..n] + [items[n]];
    }
  }

  /** No alert is lost, repeated or put in another category's group. */
  lemma GroupsPartition(p: Payload, cat: string, a: Alert)
    ensures multiset(OfCategory(p.alerts, Categories(p.alerts, PayloadStatus(p)), cat))[a] ==
      if AlertCategory(a, PayloadStatus(p)) == cat then multiset(p.alerts)[a] else 0
  {
    CategoryCounts(p.alerts, Categories(p.alerts, PayloadStatus(p)), cat, a, AlertCategory(a, PayloadStatus(p)));
  }
}
