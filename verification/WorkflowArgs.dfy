// vcrun.py's validate_workflow_args: the caller's arguments are checked, normalised key by key and
// printed canonically; the digest of that text identifies the operation.
module WorkflowArgs {
  import opened PyText
  import opened Json
  import opened JsonText
  import opened Canonical
  import opened Options

  const MAX_ARGS_BYTES := 32 * 1024
  const MAX_VALUE_CHARS := 16 * 1024
  const BIGINT_MAX := 9_223_372_036_854_775_807

  // ---------------------------------------------------------------- contracts

  datatype Workflow =
    | EvaluateLead | InboundIntake | OutboundScout | RuntimePreflight | PreferenceObserve | PreferenceForget
    | DocumentIngest | DocumentLeadIntake | EvidenceRecord | ContradictionRecord | TrajectoryRecord | MemoRecord
    | SourceWatch | SourceUnwatch | SourceScan | InboundTextIntake | OrchestrationRecord | ProposalRecord

  function Names(names: seq<string>): set<PyStr> { set i | 0 <= i < |names| :: Lit(names[i]) }

  function RequiredNames(w: Workflow): seq<string> {
    match w
    case EvaluateLead => ["idempotency_key", "lead_id", "criteria_json", "decision_context_json"]
    case InboundIntake =>
      ["idempotency_key", "lead_title", "company_name", "company_domain", "document_path",
       "channel_provider", "channel_account_id", "channel_event_id"]
    case OutboundScout => ["idempotency_key", "company_name", "company_domain", "lead_title"]
    case RuntimePreflight => ["idempotency_key"]
    case PreferenceObserve =>
      ["idempotency_key", "trusted_context", "preference_key", "preference_value", "observation_kind"]
    case PreferenceForget => ["idempotency_key", "trusted_context", "preference_key"]
    case DocumentIngest => ["idempotency_key", "document_path", "trusted_context"]
    case DocumentLeadIntake =>
      ["idempotency_key", "trusted_context", "extraction_id", "lead_title", "company_name", "company_domain"]
    case EvidenceRecord => ["idempotency_key", "lead_id", "evidence_json"]
    case ContradictionRecord => ["idempotency_key", "lead_id", "left_fact_id", "right_fact_id", "severity"]
    case TrajectoryRecord => ["idempotency_key", "lead_id", "left_fact_id", "right_fact_id"]
    case MemoRecord =>
      ["idempotency_key", "lead_id", "evaluation_id", "compiled_truth_id", "memo_title", "memo_markdown",
       "citations_json", "evidence_hash"]
    case SourceWatch =>
      ["idempotency_key", "source_name", "source_uri", "source_class", "cadence", "thesis_relevance", "expected_signal"]
    case SourceUnwatch => ["idempotency_key", "source_uri"]
    case SourceScan => ["idempotency_key", "limit"]
    case InboundTextIntake => ["idempotency_key", "lead_title", "company_name", "company_domain", "origin_subtype"]
    case OrchestrationRecord => ["idempotency_key", "lead_id", "record_kind", "specialist", "payload_json"]
    case ProposalRecord => ["idempotency_key", "proposal_kind", "title", "summary", "content_json"]
  }

  function OptionalNames(w: Workflow): seq<string> {
    if w.OrchestrationRecord? then ["flow_id", "task_id", "flow_revision"] else []
  }

  /** json_object_keys. */
  function ObjectNames(w: Workflow): seq<string> {
    match w
    case EvaluateLead => ["criteria_json", "decision_context_json"]
    case EvidenceRecord => ["evidence_json"]
    case OrchestrationRecord => ["payload_json"]
    case ProposalRecord => ["content_json"]
    case _ => []
  }

  const BIGINT_NAMES :=
    ["lead_id", "left_fact_id", "right_fact_id", "extraction_id", "evaluation_id", "compiled_truth_id"]

  const BIGINT_KEYS := Names(BIGINT_NAMES)
  const FLOW_REVISION := Lit("flow_revision")
  const IDEMPOTENCY_KEY := Lit("idempotency_key")
  const SOURCE_URI := Lit("source_uri")
  const COMPANY_DOMAIN := Lit("company_domain")
  const CITATIONS_JSON := Lit("citations_json")
  const INPUT_DIGEST := Lit("input_digest")

  /** The regular expressions and library calls the checks are built on. */
  datatype Rules = Rules(
    idempotency: PyStr -> bool, uri: PyStr -> bool, domain: PyStr -> bool, sha256: PyStr -> bool,
    inboxPath: PyStr -> bool, mediaPath: PyStr -> bool, lower: PyStr -> PyStr, repr: PyStr -> PyStr)

  // ---------------------------------------------------------------- identifiers

  /** [1-9][0-9]{0,n-1}, matched in full. */
  predicate Positive(v: PyStr, n: nat) {
    0 < |v| <= n && v[0] != ZERO && forall i :: 0 <= i < |v| ==> IsDigit(v[i])
  }

  function Value(v: PyStr): nat
    requires forall i :: 0 <= i < |v| ==> IsDigit(v[i])
  {
    DigitsVal(v, 0, |v|)
  }

  /** _canonical_bigint. */
  predicate CanonicalBigint(v: PyStr, allowZero: bool) {
    (Positive(v, 19) || (allowZero && v == [ZERO])) && Value(v) <= BIGINT_MAX
  }

  lemma {:induction false} PrefixValue(v: PyStr, i: nat, j: nat)
    requires i <= j <= |v| && forall k :: 0 <= k < |v| ==> IsDigit(v[k])
    ensures DigitsVal(v[..j], 0, i) == DigitsVal(v, 0, i)
    decreases i
  {
    if i > 0 { PrefixValue(v, i - 1, j); }
  }

  /** A digit string without a leading zero is the decimal of its value. */
  lemma {:induction false} DecimalOf(v: PyStr)
    requires Positive(v, |v|)
    ensures Value(v) > 0 && Decimal(Value(v)) == v
    decreases |v|
  {
    var n := |v| - 1;
    assert IsDigit(v[n]);
    if n > 0 {
      DecimalOf(v[..n]);
      PrefixValue(v, n, n);
      assert Value(v) == 10 * Value(v[..n]) + (v[n] - ZERO);
      assert v == v[..n] + [v[n]];
    } else {
      assert DigitsVal(v, 0, 0) == 0;
      assert v == [v[0]];
    }
  }

  /** An identifier is accepted iff it is the canonical decimal of an integer the column can hold. */
  lemma BigintMeans(v: PyStr, allowZero: bool)
    ensures CanonicalBigint(v, allowZero) <==>
            exists n: nat :: (if allowZero then 0 else 1) <= n <= 9_223_372_036_854_775_807 && v == Decimal(n)
  {
    if CanonicalBigint(v, allowZero) && v != [ZERO] { DecimalOf(v); }
    if CanonicalBigint(v, allowZero) && v == [ZERO] { assert Decimal(0) == v; }
    forall n: nat | (if allowZero then 0 else 1) <= n <= BIGINT_MAX && v == Decimal(n)
      ensures CanonicalBigint(v, allowZero)
    {
      assert v[0..|v|] == v;
      DecimalRead(v, 0, n);
      DecimalLength(n, 19);
      assert Power10(19) == 10_000_000_000_000_000_000 by { Power19(); }
    }
  }

  lemma Power19()
    ensures Power10(19) == 10_000_000_000_000_000_000
  {
    assert Power10(5) == 100_000;
    assert Power10(10) == 10_000_000_000;
    assert Power10(15) == 1_000_000_000_000_000;
  }

  // ---------------------------------------------------------------- one argument

  /** str.rstrip("."). */
  function RstripDots(v: PyStr): PyStr
    decreases |v|
  {
    if v != [] && v[|v|-1] == DOT then RstripDots(v[..|v|-1]) else v
  }

  predicate OneOf(v: PyStr, choices: seq<string>) { exists i :: 0 <= i < |choices| && v == Lit(choices[i]) }

  const PREFERENCE_KEYS :=
    ["memo_length", "communication_tone", "research_depth", "citation_density", "output_structure"]

  /** The checks that leave the value alone. */
  predicate Shape(r: Rules, w: Workflow, key: PyStr, v: PyStr) {
    && (key == IDEMPOTENCY_KEY ==> r.idempotency(v))
    && (key in BIGINT_KEYS ==> CanonicalBigint(v, false))
    && (key == FLOW_REVISION ==> CanonicalBigint(v, true))
    && (match w
        case OrchestrationRecord =>
          key == Lit("record_kind") ==> OneOf(v, ["delegation_eval", "return_assessment", "chief_output"])
        case ProposalRecord =>
          key == Lit("proposal_kind") ==> OneOf(v, ["schema_change", "source_policy", "skill_candidate", "other"])
        case ContradictionRecord => key == Lit("severity") ==> OneOf(v, ["low", "medium", "high", "blocking"])
        case SourceWatch =>
          && (key == Lit("source_class") ==>
                OneOf(v, ["company_blog", "vc_portfolio", "news_rss", "press_release",
                          "research_report", "open_source", "job_board", "other"]))
          && (key == Lit("cadence") ==> OneOf(v, ["daily", "weekly", "monthly"]))
        case SourceScan => key == Lit("limit") ==> Positive(v, 3) && Value(v) <= 500
        case MemoRecord => key == Lit("evidence_hash") ==> r.sha256(v)
        case InboundIntake =>
          && (key == Lit("document_path") ==> r.inboxPath(v))
          && (key == Lit("channel_provider") ==> v == Lit("manual"))
        case DocumentIngest => key == Lit("document_path") ==> r.mediaPath(v)
        case PreferenceObserve =>
          && (key == Lit("preference_key") ==> OneOf(v, PREFERENCE_KEYS))
          && (key == Lit("observation_kind") ==> OneOf(v, ["explicit", "inferred"]))
        case PreferenceForget => key == Lit("preference_key") ==> OneOf(v, PREFERENCE_KEYS)
        case InboundTextIntake =>
          key == Lit("origin_subtype") ==> OneOf(v, ["direct_contact", "network_referral", "event_followup", "unknown"])
        case _ => true)
  }

  /** What repr() of a float prints: a number again, or a constant when it overflowed. */
  function Shown(text: PyStr): Json { if text == INF_WORD || text == NEG_INF_WORD then Constant(text) else Float(text) }

  /** Floating-point numbers as Python prints them back. */
  function Reprs(r: Rules, v: Json): Json {
    match v
    case Float(lexeme) => Shown(r.repr(lexeme))
    case Arr(items) => Arr(ReprItems(r, items))
    case Obj(ms) => Obj(ReprMembers(r, ms))
    case _ => v
  }

  function ReprItems(r: Rules, items: seq<Json>): seq<Json> {
    if items == [] then [] else [Reprs(r, items[0])] + ReprItems(r, items[1..])
  }

  function ReprMembers(r: Rules, ms: seq<Member>): seq<Member> {
    if ms == [] then [] else var v := ms[0].value; [Member(ms[0].key, Reprs(r, v))] + ReprMembers(r, ms[1..])
  }

  /** NaN, Infinity or -Infinity at some depth. */
  predicate HasConstant(v: Json) {
    match v
    case Constant(_) => true
    case Arr(items) => ItemsHaveConstant(items)
    case Obj(ms) => MembersHaveConstant(ms)
    case _ => false
  }

  predicate ItemsHaveConstant(items: seq<Json>) {
    items != [] && (HasConstant(items[0]) || ItemsHaveConstant(items[1..]))
  }

  predicate MembersHaveConstant(ms: seq<Member>) {
    ms != [] && (var v := ms[0].value; HasConstant(v) || MembersHaveConstant(ms[1..]))
  }

  /** _validate_json_object_string. */
  function ObjectText(r: Rules, v: PyStr): Option<PyStr> {
    match Loads(v)
    case Done(doc, _) =>
      if doc.Obj? && Unique(doc) && !HasConstant(doc) then Some(Print(Reprs(r, Canon(doc)))) else None
    case _ => None
  }

  predicate AllObjects(items: seq<Json>) { forall i :: 0 <= i < |items| ==> items[i].Obj? }

  /** citations_json, which is parsed without the hook that rejects NaN and Infinity. */
  function CitationsText(r: Rules, v: PyStr): Option<PyStr> {
    match Loads(v)
    case Done(doc, _) =>
      if doc.Arr? && Unique(doc) && AllObjects(doc.items) then Some(Print(Reprs(r, Canon(doc)))) else None
    case _ => None
  }

  predicate HasDomain(w: Workflow) {
    w.InboundIntake? || w.InboundTextIntake? || w.OutboundScout? || w.DocumentLeadIntake?
  }

  /** What the rewriting statements make of one argument. */
  function Rewrite(r: Rules, w: Workflow, key: PyStr, v: PyStr): Option<PyStr> {
    if (w.SourceWatch? || w.SourceUnwatch?) && key == SOURCE_URI then
      if r.uri(Strip(v)) then Some(Strip(v)) else None
    else if w.MemoRecord? && key == CITATIONS_JSON then CitationsText(r, v)
    else if HasDomain(w) && key == COMPANY_DOMAIN then
      var domain := RstripDots(r.lower(Strip(v)));
      if r.domain(domain) then Some(domain) else None
    else if key in Names(ObjectNames(w)) then ObjectText(r, v)
    else Some(v)
  }

  /** The normalised value of one argument, or None for a refusal. */
  function Normal(r: Rules, w: Workflow, key: PyStr, v: PyStr): Option<PyStr> {
    if Shape(r, w, key, v) then Rewrite(r, w, key, v) else None
  }

  // ---------------------------------------------------------------- all arguments

  function Utf8Size(s: PyStr): nat {
    if s == [] then 0
    else (if s[0] < 0x80 then 1 else if s[0] < 0x800 then 2 else if s[0] < 0x10000 then 3 else 4) + Utf8Size(s[1..])
  }

  /** raw.encode("utf-8") succeeds and is not too long. */
  predicate Fits(raw: PyStr) {
    (forall i :: 0 <= i < |raw| ==> !IsHigh(raw[i]) && !IsLow(raw[i])) && Utf8Size(raw) <= MAX_ARGS_BYTES
  }

  predicate Basic(v: Json) {
    v.Str? && 0 < |v.text| <= MAX_VALUE_CHARS && 0 !in v.text
  }

  function Keys(ms: seq<Member>): set<PyStr> { set i | 0 <= i < |ms| :: ms[i].key }

  predicate InContract(w: Workflow, keys: set<PyStr>) {
    Names(RequiredNames(w)) <= keys <= Names(RequiredNames(w)) + Names(OptionalNames(w))
  }

  /** An argument that passes every check. */
  predicate Fine(r: Rules, w: Workflow, m: Member) { Basic(m.value) && Normal(r, w, m.key, m.value.text).Some? }

  /** An argument that passes the checks made before anything is rewritten. */
  predicate Checked(r: Rules, w: Workflow, m: Member) { Basic(m.value) && Shape(r, w, m.key, m.value.text) }

  predicate Accepts(r: Rules, w: Workflow, ms: seq<Member>) {
    Distinct(ms) && InContract(w, Keys(ms)) && forall i :: 0 <= i < |ms| ==> Fine(r, w, ms[i])
  }

  function NormalMember(r: Rules, w: Workflow, m: Member): Member {
    if m.value.Str? && Normal(r, w, m.key, m.value.text).Some?
    then Member(m.key, Str(Normal(r, w, m.key, m.value.text).value)) else m
  }

  /** The arguments after normalisation, in their order of insertion. */
  function Normalised(r: Rules, w: Workflow, ms: seq<Member>): (n: seq<Member>)
    ensures |n| == |ms| && forall i :: 0 <= i < |n| ==> n[i] == NormalMember(r, w, ms[i])
  {
    seq(|ms|, i requires 0 <= i < |ms| => NormalMember(r, w, ms[i]))
  }

  function Args(raw: PyStr): Option<seq<Member>> {
    if !Fits(raw) then None
    else
      match Loads(raw)
      case Done(doc, _) => if doc.Obj? then Some(doc.members) else None
      case _ => None
  }

  predicate Accepted(r: Rules, w: Workflow, raw: PyStr) { Args(raw).Some? && Accepts(r, w, Args(raw).value) }

  function Payload(r: Rules, w: Workflow, ms: seq<Member>): PyStr { Dumps(Obj(Normalised(r, w, ms))) }
}
