/**
  The value types of the stalled-issues list
  (src/MEGASync/stalled_issues/model/StalledIssue.h): the filter criterion,
  a problem path, a stalled issue with its default values and its copy
  constructor, and the variant that wraps a shared pointer to an issue and
  compares by identity.
*/
module StalledIssues {
  import opened Wrappers

  /** StalledIssueFilterCriterion, in declaration order. */
  datatype FilterCriterion = AllIssues | NameConflicts | ItemTypeConflicts | OtherConflicts

  /** The enumerator's integer value: ALL_ISSUES is 0 and the others follow
      in order. */
  function CriterionValue(c: FilterCriterion): (n: int)
    ensures 0 <= n <= 3
    ensures n == 0 <==> c == AllIssues
  {
    match c
    case AllIssues => 0
    case NameConflicts => 1
    case ItemTypeConflicts => 2
    case OtherConflicts => 3
  }

  function CriterionOfValue(n: int): (c: Option<FilterCriterion>)
    ensures c.Some? <==> 0 <= n <= 3
  {
    if n == 0 then Some(AllIssues)
    else if n == 1 then Some(NameConflicts)
    else if n == 2 then Some(ItemTypeConflicts)
    else if n == 3 then Some(OtherConflicts)
    else None
  }

  /** The values are distinct, so the criterion and its value determine
      each other. */
  lemma CriterionValueRoundTrip(c: FilterCriterion, n: int)
    ensures CriterionOfValue(CriterionValue(c)) == Some(c)
    ensures CriterionOfValue(n).Some? ==> CriterionValue(CriterionOfValue(n).value) == n
  {
  }

  /** mega::MegaSyncStall::SyncPathProblem: NoProblem, or one of the
      library's other problem codes. */
  datatype PathProblem = NoProblem | Problem(code: int)

  /** mega::MegaSyncStall::SyncStallReason: NoReason, or another code. */
  datatype StallReason = NoReason | Reason(code: int)

  /** StalledIssueData::Path. */
  datatype Path = Path(path: string, problem: PathProblem)

  /** A default-constructed path. */
  const DefaultPath := Path("", NoProblem)

  predicate IsEmpty(p: Path)
  {
    p.path == "" && p.problem == NoProblem
  }

  /** A path is empty exactly when it is the default one. */
  lemma EmptyPathIsDefault(p: Path)
    ensures IsEmpty(p) <==> p == DefaultPath
  {
  }

  /** The data an issue shares with its copies (StalledIssueData, reached
      through an explicitly shared pointer). */
  class StalledIssueData {
    var movePath: Path
    var path: Path
    var isCloud: bool
    var isSolved: bool
  }

  newtype uint8 = x: int | 0 <= x < 256

  /** StalledIssue. The local and cloud data are shared pointers, possibly
      null. */
  datatype StalledIssue = StalledIssue(
    detectedMegaSide: bool,
    localData: Option<StalledIssueData>,
    cloudData: Option<StalledIssueData>,
    reason: StallReason,
    isSolved: bool,
    files: uint8,
    folders: uint8,
    ignoredPaths: seq<string>)

  /** A default-constructed issue. */
  function DefaultIssue(): (i: StalledIssue)
    ensures i.reason == NoReason && !i.isSolved && !i.detectedMegaSide
    ensures i.files == 0 && i.folders == 0 && i.ignoredPaths == []
    ensures i.localData.None? && i.cloudData.None?
  {
    StalledIssue(false, None, None, NoReason, false, 0, 0, [])
  }

  /** The copy constructor: side flag, data pointers, reason and solved
      flag are copied; file and folder counts and the ignored paths take
      their defaults. */
  function CopyIssue(i: StalledIssue): (c: StalledIssue)
    ensures c.detectedMegaSide == i.detectedMegaSide && c.reason == i.reason && c.isSolved == i.isSolved
    ensures c.localData == i.localData && c.cloudData == i.cloudData
    ensures c.files == DefaultIssue().files && c.folders == DefaultIssue().folders
    ensures c.ignoredPaths == DefaultIssue().ignoredPaths
  {
    StalledIssue(i.detectedMegaSide, i.localData, i.cloudData, i.reason, i.isSolved, 0, 0, [])
  }

  /** Copying twice is copying once, a copy of the default issue is the
      default issue, and an issue survives a copy exactly when its counts
      and ignored paths are already the defaults. */
  lemma CopyIssueProperties(i: StalledIssue)
    ensures CopyIssue(CopyIssue(i)) == CopyIssue(i)
    ensures CopyIssue(DefaultIssue()) == DefaultIssue()
    ensures CopyIssue(i) == i <==> i.files == 0 && i.folders == 0 && i.ignoredPaths == []
  {
  }

  /** The object a StalledIssueVariant's shared pointer points to. */
  class IssueCell {
    var issue: StalledIssue

    constructor(i: StalledIssue)
      ensures issue == i
    {
      issue := i;
    }
  }

  /** StalledIssueVariant: a possibly null shared pointer. */
  datatype StalledIssueVariant = StalledIssueVariant(data: Option<IssueCell>)

  /** The copy constructor shares the pointer. */
  function CopyVariant(v: StalledIssueVariant): (c: StalledIssueVariant)
    ensures c.data == v.data
  {
    StalledIssueVariant(v.data)
  }

  function ConsultData(v: StalledIssueVariant): (p: Option<IssueCell>)
    ensures p == v.data
  {
    v.data
  }

  /** operator==: the two variants hold the same pointer. */
  predicate VariantEquals(a: StalledIssueVariant, b: StalledIssueVariant)
  {
    ConsultData(a) == ConsultData(b)
  }

  /** Equality is by identity: a copy equals its source, and two variants
      over different objects differ even when those objects hold the same
      issue. */
  lemma VariantEqualityIsIdentity(v: StalledIssueVariant, a: IssueCell, b: IssueCell)
    ensures VariantEquals(CopyVariant(v), v)
    ensures VariantEquals(StalledIssueVariant(Some(a)), StalledIssueVariant(Some(b))) <==> a == b
  {
  }

  /** Two distinct objects holding equal issues give unequal variants. */
  method SameContentsDifferentIdentity(i: StalledIssue)
    returns (a: StalledIssueVariant, b: StalledIssueVariant)
    ensures a.data.Some? && b.data.Some?
    ensures !VariantEquals(a, b)
  {
    var ca := new IssueCell(i);
    var cb := new IssueCell(i);
    a := StalledIssueVariant(Some(ca));
    b := StalledIssueVariant(Some(cb));
  }
}
