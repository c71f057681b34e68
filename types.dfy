/**
 * The RFP record, its two enumerations, the fixed stage order and the
 * badge tones derived from status and risk (app/page.tsx).
 *
 * Dates (`dueDate`, `lastActivity`) are day numbers rather than ISO
 * `YYYY-MM-DD` strings: for well-formed ISO dates, string order is day
 * order, which is all the source uses them for besides `daysUntil`.
 */
module RfpTypes {

  datatype Option<T> = None | Some(value: T)

  datatype Status =
    | Draft
    | InternalReview
    | Published
    | QAndA
    | SubmissionClosed
    | Evaluation
    | Awarded

  datatype Risk = NoRisk | AtRisk | OverdueRisk

  datatype Approvals = Approvals(finance: bool, legal: bool, head: bool)

  datatype Rfp = Rfp(
    id: string,
    title: string,
    category: string,
    site: string,
    owner: string,
    status: Status,
    dueDate: int,
    budgetAed: Option<int>,
    vendorsInvited: int,
    submissions: int,
    lastActivity: int,
    approvals: Approvals,
    risk: Risk)

  /** The tag set of `badge` (and of an alert's type). */
  datatype Tone = Neutral | Ok | Warn | Danger

  /** The workflow stages in their display order (`statusOrder`). */
  const StatusOrder: seq<Status> :=
    [Draft, InternalReview, Published, QAndA, SubmissionClosed, Evaluation, Awarded]

  /** Every status is listed exactly once. */
  lemma StatusOrderComplete()
    ensures |StatusOrder| == 7
    ensures forall s: Status :: s in StatusOrder
    ensures forall i, j :: 0 <= i < j < |StatusOrder| ==> StatusOrder[i] != StatusOrder[j]
  {
    forall s: Status ensures s in StatusOrder {
      match s
      case Draft => assert StatusOrder[0] == s;
      case InternalReview => assert StatusOrder[1] == s;
      case Published => assert StatusOrder[2] == s;
      case QAndA => assert StatusOrder[3] == s;
      case SubmissionClosed => assert StatusOrder[4] == s;
      case Evaluation => assert StatusOrder[5] == s;
      case Awarded => assert StatusOrder[6] == s;
    }
  }

  /** The position of a status in `StatusOrder`. */
  function StageIndex(s: Status): (i: nat)
    ensures i < |StatusOrder| && StatusOrder[i] == s
  {
    match s
    case Draft => 0
    case InternalReview => 1
    case Published => 2
    case QAndA => 3
    case SubmissionClosed => 4
    case Evaluation => 5
    case Awarded => 6
  }

  /** The string a status has in the source (its TypeScript literal). */
  function StatusLabel(s: Status): (l: string)
    ensures |l| > 0 && l != "All"
  {
    match s
    case Draft => "Draft"
    case InternalReview => "Internal Review"
    case Published => "Published"
    case QAndA => "Q&A"
    case SubmissionClosed => "Submission Closed"
    case Evaluation => "Evaluation"
    case Awarded => "Awarded"
  }

  /**
   * Labels identify statuses: two statuses with the same label are the
   * same, and no label is the filter's wildcard "All".
   */
  lemma StatusLabelInjective(s: Status, t: Status)
    ensures StatusLabel(s) == StatusLabel(t) <==> s == t
    ensures StatusLabel(s) != "All"
  {
    if StatusLabel(s) == StatusLabel(t) {
      assert StatusLabel(s)[0] == StatusLabel(t)[0];
      assert |StatusLabel(s)| == |StatusLabel(t)|;
    }
  }

  /** The label shown for a risk on the due-soon badge and in the risk pie. */
  function RiskLabel(r: Risk): string {
    match r
    case NoRisk => "On track"
    case AtRisk => "At risk"
    case OverdueRisk => "Overdue"
  }

  /**
   * `statusTone`: the final stage is "ok", the two stages after
   * submissions close are "warn", the earlier four are "neutral";
   * never "danger".
   */
  function StatusTone(s: Status): (t: Tone)
    ensures t != Danger
    ensures t == Ok <==> StageIndex(s) == 6
    ensures t == Warn <==> 4 <= StageIndex(s) <= 5
    ensures t == Neutral <==> StageIndex(s) < 4
  {
    if s == Awarded then Ok
    else if s == Evaluation || s == SubmissionClosed then Warn
    else Neutral
  }

  /** `riskTone`: never "ok", and "danger" exactly for an overdue record. */
  function RiskTone(r: Risk): (t: Tone)
    ensures t != Ok
    ensures t == Danger <==> r == OverdueRisk
  {
    match r
    case NoRisk => Neutral
    case AtRisk => Warn
    case OverdueRisk => Danger
  }

  /** Distinct risks get distinct tones, so the badge's colour tells the risk apart. */
  lemma RiskToneInjective(a: Risk, b: Risk)
    ensures RiskTone(a) == RiskTone(b) <==> a == b
  {
  }

  function StatusOf(r: Rfp): Status { r.status }
  function RiskOf(r: Rfp): Risk { r.risk }
  function CategoryOf(r: Rfp): string { r.category }
  function SiteOf(r: Rfp): string { r.site }
}
