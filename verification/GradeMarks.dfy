/** School results: which submissions are accepted, and the one form each of them is stored and fingerprinted in. */
module GradeMarks {
  import opened Options
  import opened Decimals

  const LETTERS: set<string> :=
    {"A+", "A", "A-", "B+", "B", "B-", "C+", "C", "C-", "D+", "D", "D-", "F", "P", "NP", "I"}

  datatype Format = Percentage | Points | Letter

  /** A submitted mark; None stands for a field that is absent, null or blank. */
  datatype Mark = Mark(format: Option<Format>, score: Option<Decimal>, possible: Option<Decimal>,
      letter: Option<string>)

  datatype Plain = Scored(score: string) | OutOf(earned: string, possible: string) | Lettered(letter: string)

  datatype Line = Line(subject: string, mark: Mark)

  datatype Result =
    | Individual(subject: string, assessment: string, mark: Mark)
    | Report(semester: bool, number: int, year: int, lines: seq<Line>)

  datatype PlainLine = PlainLine(subject: string, mark: Plain)

  datatype PlainResult =
    | PlainIndividual(subject: string, assessment: string, mark: Plain)
    | PlainReport(semester: bool, number: int, year: int, lines: seq<PlainLine>)

  /** The digit limits of a decimal field: 18 digits, 6 of them after the point. */
  predicate FitsField(d: Decimal) {
    var digits := |Digits(d.coefficient)|;
    if d.exponent >= 0 then digits + d.exponent <= 12
    else if digits > -d.exponent then digits <= 18 && digits + d.exponent <= 12 && -d.exponent <= 6
    else -d.exponent <= 6
  }

  /** What each supplied field checks on its own. */
  predicate FieldsFit(m: Mark) {
    && (m.score.Some? ==> FitsField(m.score.value) && Value(m.score.value) >= 0.0)
    && (m.possible.Some? ==> FitsField(m.possible.value))
    && (m.letter.Some? ==> m.letter.value in LETTERS)
  }

  /** Exactly the fields of the chosen format, in range; numbers in their canonical spelling. */
  function NormalizedMark(m: Mark): Option<Plain> {
    match m.format
    case None => None
    case Some(Percentage) =>
      if m.possible.None? && m.letter.None? && m.score.Some? && Value(m.score.value) <= 100.0
      then Some(Scored(Canonical(m.score.value))) else None
    case Some(Points) =>
      if m.letter.None? && m.score.Some? && m.possible.Some? && Value(m.possible.value) > 0.0
      then Some(OutOf(Canonical(m.score.value), Canonical(m.possible.value))) else None
    case Some(Letter) =>
      if m.score.None? && m.possible.None? && m.letter.Some? then Some(Lettered(m.letter.value)) else None
  }

  function AcceptedMark(m: Mark): Option<Plain> {
    if FieldsFit(m) then NormalizedMark(m) else None
  }

  function NormalizedLines(lines: seq<Line>): Option<seq<PlainLine>> {
    if lines == [] then Some([])
    else
      match (AcceptedMark(lines[0].mark), NormalizedLines(lines[1..]))
      case (Some(mark), Some(rest)) =>
        if lines[0].subject == "" then None else Some([PlainLine(lines[0].subject, mark)] + rest)
      case _ => None
  }

  predicate SubjectsDiffer(lines: seq<Line>, fold: string -> string) {
    forall i, j | 0 <= i < j < |lines| :: fold(lines[i].subject) != fold(lines[j].subject)
  }

  function Normalized(r: Result, fold: string -> string): Option<PlainResult> {
    match r
    case Individual(subject, assessment, mark) =>
      if subject == "" || assessment == "" || AcceptedMark(mark).None? then None
      else Some(PlainIndividual(subject, assessment, AcceptedMark(mark).value))
    case Report(semester, number, year, lines) =>
      if 1 <= number <= (if semester then 2 else 4) && 1 <= year <= 9998 && 1 <= |lines| <= 30
         && SubjectsDiffer(lines, fold) && NormalizedLines(lines).Some?
      then Some(PlainReport(semester, number, year, NormalizedLines(lines).value))
      else None
  }

  // ---------------------------------------------------------------- what one stored form stands for

  predicate SameNumber(a: Option<Decimal>, b: Option<Decimal>) {
    a.Some? == b.Some? && (a.Some? && b.Some? ==> Value(a.value) == Value(b.value))
  }

  predicate SameMark(a: Mark, b: Mark) {
    a.format == b.format && a.letter == b.letter && SameNumber(a.score, b.score) && SameNumber(a.possible, b.possible)
  }

  predicate SameLines(a: seq<Line>, b: seq<Line>) {
    |a| == |b| && forall i | 0 <= i < |a| :: a[i].subject == b[i].subject && SameMark(a[i].mark, b[i].mark)
  }

  predicate SameResult(a: Result, b: Result) {
    match (a, b)
    case (Individual(s, t, m), Individual(s', t', m')) => s == s' && t == t' && SameMark(m, m')
    case (Report(p, n, y, lines), Report(p', n', y', lines')) =>
      p == p' && n == n' && y == y' && SameLines(lines, lines')
    case _ => false
  }

  lemma MarksAlikeExactlyWhen(a: Mark, b: Mark)
    requires NormalizedMark(a).Some? && NormalizedMark(b).Some?
    ensures NormalizedMark(a) == NormalizedMark(b) <==> SameMark(a, b)
  {
    if a.score.Some? && b.score.Some? {
      SpelledAlikeExactlyWhenEqual(a.score.value, b.score.value);
    }
    if a.possible.Some? && b.possible.Some? {
      SpelledAlikeExactlyWhenEqual(a.possible.value, b.possible.value);
    }
  }

  lemma {:induction false} LinesAlikeExactlyWhen(a: seq<Line>, b: seq<Line>)
    requires NormalizedLines(a).Some? && NormalizedLines(b).Some?
    ensures |NormalizedLines(a).value| == |a|
    ensures NormalizedLines(a) == NormalizedLines(b) <==> SameLines(a, b)
  {
    if a != [] && b != [] {
      MarksAlikeExactlyWhen(a[0].mark, b[0].mark);
      LinesAlikeExactlyWhen(a[1..], b[1..]);
      OneMoreLineAlike(a, b);
      var x, y := NormalizedLines(a).value, NormalizedLines(b).value;
      assert x[1..] == NormalizedLines(a[1..]).value && y[1..] == NormalizedLines(b[1..]).value;
      assert x == [x[0]] + x[1..] && y == [y[0]] + y[1..];
    } else if a != [] {
      LinesAlikeExactlyWhen(a[1..], []);
    }
  }

  lemma OneMoreLineAlike(a: seq<Line>, b: seq<Line>)
    requires a != [] && b != []
    ensures SameLines(a, b) <==>
      a[0].subject == b[0].subject && SameMark(a[0].mark, b[0].mark) && SameLines(a[1..], b[1..])
  {
  }

  /** Accepted results have one stored form exactly when they are the same result, however their numbers are spelled. */
  lemma ResultsAlikeExactlyWhen(a: Result, b: Result, fold: string -> string)
    requires Normalized(a, fold).Some? && Normalized(b, fold).Some?
    ensures Normalized(a, fold) == Normalized(b, fold) <==> SameResult(a, b)
  {
    if a.Individual? && b.Individual? {
      MarksAlikeExactlyWhen(a.mark, b.mark);
    } else if a.Report? && b.Report? {
      LinesAlikeExactlyWhen(a.lines, b.lines);
    }
  }

  // ---------------------------------------------------------------- the stored form read back

  predicate Means(plain: Plain, m: Mark) {
    match plain
    case Scored(score) =>
      m.format == Some(Percentage) && m.score.Some? && Value(Read(score)) == Value(m.score.value) <= 100.0
    case OutOf(earned, possible) =>
      && m.format == Some(Points) && m.score.Some? && Value(Read(earned)) == Value(m.score.value)
      && m.possible.Some? && Value(Read(possible)) == Value(m.possible.value) > 0.0
    case Lettered(letter) => m.format == Some(Letter) && m.letter == Some(letter)
  }

  lemma StoredMarkReadsBack(m: Mark)
    requires NormalizedMark(m).Some?
    ensures Means(NormalizedMark(m).value, m)
  {
    if m.score.Some? {
      SpellingKeepsValue(m.score.value);
    }
    if m.possible.Some? {
      SpellingKeepsValue(m.possible.value);
    }
  }

  /** Every stored line is its submitted line: the subject in place, the numbers unrounded. */
  lemma {:induction false} StoredLinesReadBack(lines: seq<Line>)
    requires NormalizedLines(lines).Some?
    ensures |NormalizedLines(lines).value| == |lines|
    ensures forall i | 0 <= i < |lines| ::
      NormalizedLines(lines).value[i].subject == lines[i].subject
        && Means(NormalizedLines(lines).value[i].mark, lines[i].mark)
  {
    if lines != [] {
      StoredMarkReadsBack(lines[0].mark);
      StoredLinesReadBack(lines[1..]);
    }
  }

  // ---------------------------------------------------------------- respelling

  predicate LinesFit(lines: seq<Line>) {
    forall line | line in lines :: FieldsFit(line.mark)
  }

  predicate NumbersFit(r: Result) {
    match r
    case Individual(_, _, mark) => FieldsFit(mark)
    case Report(_, _, _, lines) => LinesFit(lines)
  }

  /** A respelling of an accepted result is accepted exactly when its own digits fit the fields. */
  lemma RespellingIsAcceptedExactlyWhen(a: Result, b: Result, fold: string -> string)
    requires SameResult(a, b) && Normalized(a, fold).Some?
    ensures Normalized(b, fold).Some? <==> NumbersFit(b)
    ensures NumbersFit(a)
  {
    if a.Report? {
      RespelledLinesAreAccepted(a.lines, b.lines);
    }
  }

  lemma {:induction false} RespelledLinesAreAccepted(a: seq<Line>, b: seq<Line>)
    requires SameLines(a, b) && NormalizedLines(a).Some?
    ensures NormalizedLines(b).Some? <==> LinesFit(b)
    ensures LinesFit(a)
  {
    if a != [] {
      OneMoreLineAlike(a, b);
      RespelledLinesAreAccepted(a[1..], b[1..]);
      OneMoreLineFits(a);
      OneMoreLineFits(b);
      RespelledMarkIsAccepted(a[0].mark, b[0].mark);
    }
  }

  lemma OneMoreLineFits(lines: seq<Line>)
    requires lines != []
    ensures LinesFit(lines) <==> FieldsFit(lines[0].mark) && LinesFit(lines[1..])
  {
    assert lines == [lines[0]] + lines[1..];
  }

  lemma RespelledMarkIsAccepted(a: Mark, b: Mark)
    requires SameMark(a, b) && AcceptedMark(a).Some?
    ensures FieldsFit(a) && (AcceptedMark(b).Some? <==> FieldsFit(b))
  {
  }

  // ---------------------------------------------------------------- corrections

  /** A field of a correction: not mentioned, cleared, or given. */
  datatype Given<T> = Absent | Cleared | New(value: T)

  datatype MarkFix = MarkFix(
    subject: Option<string>, assessment: Option<string>, format: Option<Format>,
    score: Given<Decimal>, possible: Given<Decimal>, letter: Given<string>)

  datatype ReportFix = ReportFix(semester: Option<bool>, number: Option<int>, year: Option<int>,
      lines: Option<seq<Line>>)

  const NO_MARK_FIX := MarkFix(None, None, None, Absent, Absent, Absent)

  function FormatOf(mark: Plain): Format {
    match mark
    case Scored(_) => Percentage
    case OutOf(_, _) => Points
    case Lettered(_) => Letter
  }

  /** The stored mark as a submission of its own numbers. */
  function Resubmitted(mark: Plain): Mark {
    match mark
    case Scored(score) => Mark(Some(Percentage), Some(Read(score)), None, None)
    case OutOf(earned, possible) => Mark(Some(Points), Some(Read(earned)), Some(Read(possible)), None)
    case Lettered(letter) => Mark(Some(Letter), None, None, Some(letter))
  }

  function Merged<T>(given: Given<T>, previous: Option<T>): Option<T> {
    match given
    case Absent => previous
    case Cleared => None
    case New(value) => Some(value)
  }

  /** A changed format begins without the old values. */
  function MergedMark(previous: Plain, fix: MarkFix): Mark {
    var format := if fix.format.Some? then fix.format.value else FormatOf(previous);
    var kept := if format == FormatOf(previous) then Resubmitted(previous) else Mark(None, None, None, None);
    Mark(Some(format), Merged(fix.score, kept.score), Merged(fix.possible, kept.possible),
      Merged(fix.letter, kept.letter))
  }

  function Supplied(fix: MarkFix): Mark {
    Mark(fix.format, Merged(fix.score, None), Merged(fix.possible, None), Merged(fix.letter, None))
  }

  function CorrectedIndividual(previous: PlainResult, fix: MarkFix): Option<PlainResult>
    requires previous.PlainIndividual?
  {
    var subject := if fix.subject.Some? then fix.subject.value else previous.subject;
    var assessment := if fix.assessment.Some? then fix.assessment.value else previous.assessment;
    var mark := NormalizedMark(MergedMark(previous.mark, fix));
    if subject == "" || assessment == "" || !FieldsFit(Supplied(fix)) || mark.None? then None
    else Some(PlainIndividual(subject, assessment, mark.value))
  }

  predicate PlainSubjectsDiffer(lines: seq<PlainLine>, fold: string -> string) {
    forall i, j | 0 <= i < j < |lines| :: fold(lines[i].subject) != fold(lines[j].subject)
  }

  function CorrectedReport(previous: PlainResult, fix: ReportFix, fold: string -> string): Option<PlainResult>
    requires previous.PlainReport?
  {
    var semester := if fix.semester.Some? then fix.semester.value else previous.semester;
    var number := if fix.number.Some? then fix.number.value else previous.number;
    var year := if fix.year.Some? then fix.year.value else previous.year;
    var lines := if fix.lines.Some? then NormalizedLines(fix.lines.value) else Some(previous.lines);
    if (fix.number.Some? && !(1 <= number <= 4)) || (fix.year.Some? && !(1 <= year <= 9998))
       || (fix.lines.Some? && !(1 <= |fix.lines.value| <= 30)) || lines.None? then None
    else if (semester && number > 2) || !PlainSubjectsDiffer(lines.value, fold) then None
    else Some(PlainReport(semester, number, year, lines.value))
  }

  /** A stored number is its own canonical spelling. */
  lemma StoredNumberIsCanonical(d: Decimal)
    ensures Canonical(Read(Canonical(d))) == Canonical(d) && Value(Read(Canonical(d))) == Value(d)
  {
    SpellingKeepsValue(d);
    SpelledAlikeExactlyWhenEqual(Read(Canonical(d)), d);
  }

  lemma ResubmittedMarkIsStored(m: Mark)
    requires NormalizedMark(m).Some?
    ensures NormalizedMark(Resubmitted(NormalizedMark(m).value)) == NormalizedMark(m)
  {
    match m.format
    case Some(Percentage) => StoredNumberIsCanonical(m.score.value);
    case Some(Points) => StoredPointsAreCanonical(m);
    case _ =>
  }

  lemma StoredPointsAreCanonical(m: Mark)
    requires m.format == Some(Points) && NormalizedMark(m).Some?
    ensures NormalizedMark(Resubmitted(NormalizedMark(m).value)) == NormalizedMark(m)
  {
    StoredNumberIsCanonical(m.score.value);
    StoredNumberIsCanonical(m.possible.value);
  }

  /** A correction that mentions no mark field leaves the stored mark as it is, however it was spelled at first. */
  lemma UnmentionedMarkStays(m: Mark, fix: MarkFix)
    requires NormalizedMark(m).Some?
    requires fix.format.None? && fix.score.Absent? && fix.possible.Absent? && fix.letter.Absent?
    ensures NormalizedMark(MergedMark(NormalizedMark(m).value, fix)) == NormalizedMark(m)
  {
    ResubmittedMarkIsStored(m);
  }

  /** Correcting one number of a points mark keeps the other exactly. */
  lemma OneNumberIsCorrected(m: Mark, fix: MarkFix, score: Decimal)
    requires NormalizedMark(m).Some? && m.format == Some(Points)
    requires fix.format.None? && fix.score == New(score) && fix.possible.Absent? && fix.letter.Absent?
    ensures NormalizedMark(MergedMark(NormalizedMark(m).value, fix))
      == Some(OutOf(Canonical(score), Canonical(m.possible.value)))
  {
    StoredNumberIsCanonical(m.possible.value);
  }
}
