/**
 * The rule-based intent classifier: an ordered table of weighted patterns, a
 * scan that keeps the first rule with the highest weight, and the extraction of
 * the `app_id` and `message` slots.
 *
 * Confidences are integer hundredths (10 stands for 0.1), so rounding to two
 * decimals is the identity. The intent patterns are kept as their regex source
 * text; the regex engine that searches them is a parameter of `Classify`.
 */
module IntentModel {
  import opened Wrappers
  import opened Text

  /** One row of the pattern table: intent name, weight in hundredths, regex source. */
  datatype Rule = Rule(intent: string, weight: nat, pattern: string)

  /** The classifier's answer; `slots` only ever has the keys "app_id" and "message". */
  datatype Classification = Classification(intent: string, confidence: nat, slots: map<string, string>)

  /** A half-open range `s[start..end]` of the input. */
  datatype Span = Span(start: nat, end: nat)

  /** A match of a message pattern: where it starts and where its captured tail starts. */
  datatype Capture = Capture(start: nat, group: nat)

  /** The weight of the candidate the scan starts from (0.1). */
  const Baseline: nat := 10

  /** The confidence of the answer to empty input (1.0). */
  const EmptyConfidence: nat := 100

  /** The pattern table, in its declared order; every pattern is compiled with IGNORECASE. */
  const IntentPatterns: seq<Rule> := [
    Rule("greeting", 90, @"\b(hi|hello|hey|good\s*(?:morning|afternoon|evening))\b"),
    Rule("goodbye", 90, @"\b(bye|goodbye|see\s*ya|see\s*you)\b"),
    Rule("help", 80, @"\b(help|what\s+can\s+you\s+do|how\s+to\s+use)\b"),
    Rule("faq_find_station", 92, @"\b(find|nearby|nearest|where)\b.*\b(charger|charging\s*station|ev\s*station|charging)\b"),
    Rule("faq_cost", 90, @"\b(cost|price|pricing|tariff|rate|fees?)\b.*\b(charging|charger|ev)\b|\bcharge\b.*\b(cost|price)\b"),
    Rule("faq_hours", 85, @"\b(hours?|open|24/?7|availability)\b.*\b(charging|station|charger)\b"),
    Rule("faq_incentives", 88, @"\b(grants?|incentives?|subsid(y|ies)|rebates?)\b"),
    Rule("faq_requirements", 88, @"\b(technical\s*requirements?|specs?|power|kw|ocpp|connector|safety|standards?)\b"),
    Rule("apply_how", 95, @"\b(apply|application|set\s*up|setup|install|permit)\b.*\b(charging|station|ev)\b"),
    Rule("status_check", 93, @"\b(status|track|progress|where\s*is)\b.*\b(APP-\d{3,8})\b"),
    Rule("status_check", 75, @"\bstatus\b.*\b(application)\b"),
    Rule("progress_update", 96, @"\b(update|add|record|log)\b.*\b(progress|update|note)\b.*\b(APP-\d{3,8})\b"),
    Rule("progress_update", 90, @"\bupdate\b\s*(?:progress\s*)?(APP-\d{3,8})\s*[:\-]\s*(.+)$")
  ]

  lemma TableWeights()
    ensures forall k | 0 <= k < |IntentPatterns| ::
      Baseline < IntentPatterns[k].weight < EmptyConfidence && IntentPatterns[k].intent != "fallback"
  {
  }

  // ---------------------------------------------------------------------------
  // The application-id slot: \bAPP-(?:\d{3,8})\b, case-insensitive

  /** `s[i..j]` is a match of `\bAPP-\d{3,8}\b` under IGNORECASE. */
  predicate AppIdMatch(s: string, i: nat, j: nat) {
    CiAt(s, i, "app-")
    && (i == 0 || !IsWordChar(s[i - 1]))
    && i + 7 <= j <= i + 12 && j <= |s|
    && (forall k | i + 4 <= k < j :: IsAsciiDigit(s[k]))
    && (j == |s| || !IsWordChar(s[j]))
  }

  /** The end of the app-id match that starts at `i`, if any; there is at most one. */
  function AppIdAt(s: string, i: nat): (r: Option<nat>)
    ensures r.Some? ==> AppIdMatch(s, i, r.value)
    ensures forall j: nat | AppIdMatch(s, i, j) :: r == Some(j)
  {
    if !CiAt(s, i, "app-") || (0 < i && IsWordChar(s[i - 1])) then None
    else
      var d := RunEnd(s, i + 4, IsAsciiDigit);
      if i + 7 <= d <= i + 12 && (d == |s| || !IsWordChar(s[d])) then Some(d) else None
  }

  /** The leftmost app-id match starting at or after `from`, as `re.search` finds it. */
  function FindAppId(s: string, from: nat): (r: Option<Span>)
    requires from <= |s|
    ensures r.Some? ==> from <= r.value.start && AppIdMatch(s, r.value.start, r.value.end)
    ensures r.Some? ==> forall i: nat, j: nat | from <= i < r.value.start :: !AppIdMatch(s, i, j)
    ensures r.None? ==> forall i: nat, j: nat | from <= i :: !AppIdMatch(s, i, j)
    decreases |s| - from
  {
    match AppIdAt(s, from)
    case Some(j) => Some(Span(from, j))
    case None => if from == |s| then None else FindAppId(s, from + 1)
  }

  /**
   * `_extract_app_id`: the leftmost app-id in `s`, upper-cased. It is absent exactly
   * when nothing matches, and otherwise has the form APP- followed by 3 to 8 digits.
   */
  function ExtractAppId(s: string): (r: Option<string>)
    ensures r.None? <==> forall i: nat, j: nat :: !AppIdMatch(s, i, j)
    ensures r.Some? ==> exists i: nat, j: nat :: AppIdMatch(s, i, j) && r.value == UpperString(s[i..j])
                                     && forall i': nat, j': nat | AppIdMatch(s, i', j') :: i <= i'
    ensures r.Some? ==> 7 <= |r.value| <= 12 && r.value[..4] == "APP-"
                        && forall k | 4 <= k < |r.value| :: IsAsciiDigit(r.value[k])
  {
    match FindAppId(s, 0)
    case None => None
    case Some(m) =>
      var v := UpperString(s[m.start..m.end]);
      CiAtUpper(s, m.start, "app-");
      assert v[..4] == UpperString(s[m.start..m.start + 4]);
      Some(v)
  }

  // ---------------------------------------------------------------------------
  // The message slot

  /** The separator class `[\s:,-]` of the `update` form. */
  predicate IsUpdateSep(c: char) {
    IsSpace(c) || c == ':' || c == ',' || c == '-'
  }

  /**
   * A match of `(APP-\d{3,8})\s*[:\-]\s*(.+)$` under IGNORECASE: the id at `i`,
   * its digits ending at `d`, the separator at `q`, the captured tail from `p`.
   */
  predicate ColonFormMatch(s: string, i: nat, d: nat, q: nat, p: nat) {
    CiAt(s, i, "app-")
    && i + 7 <= d <= i + 12 && d <= q < |s|
    && (forall k | i + 4 <= k < d :: IsAsciiDigit(s[k]))
    && (forall k | d <= k < q :: IsSpace(s[k]))
    && (s[q] == ':' || s[q] == '-')
    && q < p && TailAt(s, p)
    && (forall k | q < k < p :: IsSpace(s[k]))
  }

  /** A match of `update[\s:,-]+(.+)$` under IGNORECASE, with its captured tail from `p`. */
  predicate UpdateFormMatch(s: string, i: nat, p: nat) {
    CiAt(s, i, "update") && i + 6 < p && TailAt(s, p)
    && (forall k | i + 6 <= k < p :: IsUpdateSep(s[k]))
  }

  /**
   * The colon-form match `re.search` reports: the leftmost start, and at that start
   * the latest tail the greedy `\s*` leaves.
   */
  ghost predicate FirstColonForm(s: string, i: nat, d: nat, q: nat, p: nat) {
    ColonFormMatch(s, i, d, q, p)
    && forall i': nat, d': nat, q': nat, p': nat | ColonFormMatch(s, i', d', q', p') ::
         i < i' || (i == i' && p' <= p)
  }

  /** The update-form match `re.search` reports: leftmost start, latest tail. */
  ghost predicate FirstUpdateForm(s: string, i: nat, p: nat) {
    UpdateFormMatch(s, i, p)
    && forall i': nat, p': nat | UpdateFormMatch(s, i', p') :: i < i' || (i == i' && p' <= p)
  }

  /** In a colon-form match the digits, the spaces and the separator are forced. */
  lemma ColonFormShape(s: string, i: nat, d: nat, q: nat, p: nat)
    requires ColonFormMatch(s, i, d, q, p)
    ensures d == RunEnd(s, i + 4, IsAsciiDigit)
    ensures q == RunEnd(s, d, IsSpace)
    ensures p <= RunEnd(s, q + 1, IsSpace)
  {
    assert !IsAsciiDigit(s[d]) by {
      if d < q { assert IsSpace(s[d]); }
    }
    RunEndUnique(s, i + 4, IsAsciiDigit, d);
    RunEndUnique(s, d, IsSpace, q);
  }

  /** The greatest tail start of a colon-form match at `i`, or None if none starts there. */
  function ColonFormAt(s: string, i: nat): (r: Option<nat>)
    ensures r.Some? ==> exists d: nat, q: nat :: ColonFormMatch(s, i, d, q, r.value)
    ensures forall d: nat, q: nat, p: nat | ColonFormMatch(s, i, d, q, p) :: r.Some? && p <= r.value
  {
    assert forall d: nat, q: nat, p: nat | ColonFormMatch(s, i, d, q, p) ::
      d == RunEnd(s, i + 4, IsAsciiDigit) && q == RunEnd(s, d, IsSpace) && p <= RunEnd(s, q + 1, IsSpace) by {
      forall d: nat, q: nat, p: nat | ColonFormMatch(s, i, d, q, p)
        ensures d == RunEnd(s, i + 4, IsAsciiDigit) && q == RunEnd(s, d, IsSpace) && p <= RunEnd(s, q + 1, IsSpace)
      {
        ColonFormShape(s, i, d, q, p);
      }
    }
    if !CiAt(s, i, "app-") then None
    else
      var d := RunEnd(s, i + 4, IsAsciiDigit);
      if d < i + 7 || i + 12 < d then None
      else
        var q := RunEnd(s, d, IsSpace);
        if q == |s| || !(s[q] == ':' || s[q] == '-') then None
        else
          var r := GreatestTail(s, q, RunEnd(s, q + 1, IsSpace));
          assert r.Some? ==> ColonFormMatch(s, i, d, q, r.value);
          r
  }

  /** The leftmost colon-form match starting at or after `from`. */
  function FindColonForm(s: string, from: nat): (r: Option<Capture>)
    requires from <= |s|
    ensures r.Some? ==> from <= r.value.start && TailAt(s, r.value.group)
    ensures r.Some? ==> exists d: nat, q: nat :: ColonFormMatch(s, r.value.start, d, q, r.value.group)
    ensures forall i: nat, d: nat, q: nat, p: nat | from <= i && ColonFormMatch(s, i, d, q, p) ::
      r.Some? && (r.value.start < i || (r.value.start == i && p <= r.value.group))
    decreases |s| - from
  {
    match ColonFormAt(s, from)
    case Some(p) => Some(Capture(from, p))
    case None => if from == |s| then None else FindColonForm(s, from + 1)
  }

  /** The greatest tail start of an update-form match at `i`, or None if none starts there. */
  function UpdateFormAt(s: string, i: nat): (r: Option<nat>)
    ensures r.Some? ==> UpdateFormMatch(s, i, r.value)
    ensures forall p: nat | UpdateFormMatch(s, i, p) :: r.Some? && p <= r.value
  {
    if !CiAt(s, i, "update") then None
    else
      var hi := RunEnd(s, i + 6, IsUpdateSep);
      var r := GreatestTail(s, i + 6, hi);
      assert forall p: nat | UpdateFormMatch(s, i, p) :: p <= hi;
      r
  }

  /** The leftmost update-form match starting at or after `from`. */
  function FindUpdateForm(s: string, from: nat): (r: Option<Capture>)
    requires from <= |s|
    ensures r.Some? ==> from <= r.value.start && UpdateFormMatch(s, r.value.start, r.value.group)
    ensures forall i: nat, p: nat | from <= i && UpdateFormMatch(s, i, p) ::
      r.Some? && (r.value.start < i || (r.value.start == i && p <= r.value.group))
    decreases |s| - from
  {
    match UpdateFormAt(s, from)
    case Some(p) => Some(Capture(from, p))
    case None => if from == |s| then None else FindUpdateForm(s, from + 1)
  }

  /** Some(m) when `m` is not empty, None when it is (Python's truth test on a string). */
  function NonEmpty(m: string): Option<string> {
    if m == [] then None else Some(m)
  }

  /**
   * `_extract_progress_message`: the colon form wins whenever it matches, even when its
   * stripped tail is empty (then the answer is None); only when it does not match is
   * the tail after `update` tried; with neither, None.
   */
  function ExtractProgressMessage(s: string): (r: Option<string>)
    ensures (exists i: nat, d: nat, q: nat, p: nat :: ColonFormMatch(s, i, d, q, p)) ==>
      exists i: nat, d: nat, q: nat, p: nat :: FirstColonForm(s, i, d, q, p) && r == NonEmpty(Strip(Tail(s, p)))
    ensures ((forall i: nat, d: nat, q: nat, p: nat :: !ColonFormMatch(s, i, d, q, p))
             && (exists i: nat, p: nat :: UpdateFormMatch(s, i, p))) ==>
      exists i: nat, p: nat :: FirstUpdateForm(s, i, p) && r == Some(Strip(Tail(s, p)))
    ensures ((forall i: nat, d: nat, q: nat, p: nat :: !ColonFormMatch(s, i, d, q, p))
             && (forall i: nat, p: nat :: !UpdateFormMatch(s, i, p))) ==> r == None
    ensures r.Some? ==> r.value != [] || (forall i: nat, d: nat, q: nat, p: nat :: !ColonFormMatch(s, i, d, q, p))
  {
    match FindColonForm(s, 0)
    case Some(c) =>
      var d: nat, q: nat :| ColonFormMatch(s, c.start, d, q, c.group);
      assert FirstColonForm(s, c.start, d, q, c.group);
      NonEmpty(Strip(Tail(s, c.group)))
    case None =>
      match FindUpdateForm(s, 0)
      case Some(c) =>
        assert FirstUpdateForm(s, c.start, c.group);
        Some(Strip(Tail(s, c.group)))
      case None => None
  }

  /** Python reports one colon-form match and one update-form match: the first is unique. */
  lemma FirstMatchesUnique(s: string)
    ensures forall i: nat, d: nat, q: nat, p: nat, i': nat, d': nat, q': nat, p': nat
      | FirstColonForm(s, i, d, q, p) && FirstColonForm(s, i', d', q', p') :: i == i' && p == p'
    ensures forall i: nat, p: nat, i': nat, p': nat
      | FirstUpdateForm(s, i, p) && FirstUpdateForm(s, i', p') :: i == i' && p == p'
  {
  }

  // ---------------------------------------------------------------------------
  // Classification

  /** Rule `k` of the table matches the (stripped) text `t` under the regex engine `search`. */
  predicate Fires(k: nat, t: string, search: (string, string) -> bool)
    requires k < |IntentPatterns|
  {
    search(IntentPatterns[k].pattern, t)
  }

  /**
   * Rule `k` is the one a scan that replaces its candidate only on a strictly greater
   * weight ends with: it fires, carries `intent` and `weight`, and every rule before it
   * that fires weighs strictly less.
   */
  ghost predicate Chosen(k: nat, t: string, search: (string, string) -> bool, intent: string, weight: nat) {
    k < |IntentPatterns| && Fires(k, t, search)
    && IntentPatterns[k].intent == intent && IntentPatterns[k].weight == weight
    && forall j | 0 <= j < k && Fires(j, t, search) :: IntentPatterns[j].weight < weight
  }

  /**
   * `classify`. Empty input after stripping gets ("empty", 1.0, no slots). Otherwise the
   * confidence is the largest of 0.1 and the weights of the firing rules; the intent is
   * "fallback" when no rule fires and else that of the earliest firing rule of that
   * weight. The `app_id` slot holds the extracted id whatever the intent; the `message`
   * slot appears only for "progress_update" and a non-empty extracted message.
   */
  method Classify(text: string, search: (string, string) -> bool) returns (r: Classification)
    ensures Strip(text) == [] ==> r == Classification("empty", EmptyConfidence, map[])
    ensures Strip(text) != [] ==> Baseline <= r.confidence < EmptyConfidence
    ensures Strip(text) != [] ==>
      forall k | 0 <= k < |IntentPatterns| && Fires(k, Strip(text), search) :: IntentPatterns[k].weight <= r.confidence
    ensures Strip(text) != [] && (forall k | 0 <= k < |IntentPatterns| :: !Fires(k, Strip(text), search)) ==>
      r.intent == "fallback" && r.confidence == Baseline
    ensures Strip(text) != [] && (exists k | 0 <= k < |IntentPatterns| :: Fires(k, Strip(text), search)) ==>
      exists k: nat :: Chosen(k, Strip(text), search, r.intent, r.confidence)
    ensures r.slots.Keys <= {"app_id", "message"}
    ensures Strip(text) != [] ==>
      ("app_id" in r.slots <==> ExtractAppId(Strip(text)).Some?)
      && ("app_id" in r.slots ==> r.slots["app_id"] == ExtractAppId(Strip(text)).value)
    ensures Strip(text) != [] ==>
      ("message" in r.slots <==> r.intent == "progress_update" && ExtractProgressMessage(Strip(text)).Some?
                                 && ExtractProgressMessage(Strip(text)).value != [])
      && ("message" in r.slots ==> r.slots["message"] == ExtractProgressMessage(Strip(text)).value)
  {
    var t := Strip(text);
    if t == [] {
      return Classification("empty", EmptyConfidence, map[]);
    }

    TableWeights();
    var bestIntent, bestConf := "fallback", Baseline;
    for k := 0 to |IntentPatterns|
      invariant Baseline <= bestConf < EmptyConfidence
      invariant forall j | 0 <= j < k && Fires(j, t, search) :: IntentPatterns[j].weight <= bestConf
      invariant (bestIntent == "fallback" && bestConf == Baseline && forall j | 0 <= j < k :: !Fires(j, t, search))
                || exists j: nat :: j < k && Chosen(j, t, search, bestIntent, bestConf)
    {
      var rule := IntentPatterns[k];
      if search(rule.pattern, t) {
        if rule.weight > bestConf {
          bestIntent, bestConf := rule.intent, rule.weight;
          assert Chosen(k, t, search, bestIntent, bestConf);
        }
      }
    }

    var slots: map<string, string> := map[];
    var appId := ExtractAppId(t);
    if appId.Some? {
      slots := slots["app_id" := appId.value];
    }
    if bestIntent == "progress_update" {
      var message := ExtractProgressMessage(t);
      if message.Some? && message.value != [] {
        slots := slots["message" := message.value];
      }
    }
    r := Classification(bestIntent, bestConf, slots);
  }
}
