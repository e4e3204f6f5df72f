/** The sheet of reviewer disagreements that an adjudicator fills in, and how it is read back. */
module AdjudicationSheet {
  import opened Lookups
  import opened RetrievalPool
  import opened Sequences
  import opened Wrappers

  /** One line of a sheet: `protected` is every column that must come back unchanged; a torn line misses or adds columns. */
  datatype Line = Torn | Line(key: Key, protected: string, grade: string, rationale: string)

  datatype Entry = Entry(grade: Option<int>, rationale: Option<string>)

  datatype Fault =
    | WrongColumns | UnknownDisagreement | Repeated | ProtectedChanged
    | GradeNotInteger | GradeOutOfRange | RationaleWithoutGrade | RationaleTooShort | RationaleTooLong

  /** Lines are numbered from 2, after the header. */
  datatype SheetError = AtLine(number: nat, fault: Fault) | Missing(count: nat)

  /** `str.strip`, `int` (`None` where it raises), and words joined by single blanks. */
  datatype Text = Text(strip: string -> string, readInt: string -> Option<int>, tidy: string -> string)

  function KeyOf(line: Line): Key {
    if line.Torn? then ("", "") else line.key
  }

  function ReadGrade(text: Text, raw: string, complete: bool): Result<Option<int>, Fault> {
    var stripped := text.strip(raw);
    if stripped == "" && !complete then Success(None)
    else
      match text.readInt(stripped)
      case None => Failure(GradeNotInteger)
      case Some(grade) => if 0 <= grade <= 3 then Success(Some(grade)) else Failure(GradeOutOfRange)
  }

  function ReadAnswer(text: Text, line: Line, complete: bool): Result<Entry, Fault>
    requires line.Line?
  {
    match ReadGrade(text, line.grade, complete)
    case Failure(fault) => Failure(fault)
    case Success(grade) =>
      var words := text.tidy(line.rationale);
      if grade.None? && words != "" then Failure(RationaleWithoutGrade)
      else if grade.Some? && |words| < 10 then Failure(RationaleTooShort)
      else if |words| > 1000 then Failure(RationaleTooLong)
      else Success(Entry(grade, if words == "" then None else Some(words)))
  }

  /** A line as read, given the disagreements with their protected columns and the keys already read. */
  function ReadLine(text: Text, known: map<Key, string>, seen: set<Key>, line: Line, complete: bool): Result<Entry, Fault> {
    if line.Torn? then Failure(WrongColumns)
    else if line.key !in known then Failure(UnknownDisagreement)
    else if line.key in seen then Failure(Repeated)
    else if line.protected != known[line.key] then Failure(ProtectedChanged)
    else ReadAnswer(text, line, complete)
  }

  /** A line without a fault of its own. */
  predicate Sound(text: Text, known: map<Key, string>, line: Line, complete: bool) {
    ReadLine(text, known, {}, line, complete).Success?
  }

  predicate Acceptable(text: Text, known: map<Key, string>, lines: seq<Line>, complete: bool) {
    (forall line | line in lines :: Sound(text, known, line, complete)) && DistinctBy(lines, KeyOf)
  }

  /** Sound lines, one for each disagreement. */
  predicate Accepted(text: Text, known: map<Key, string>, lines: seq<Line>, complete: bool) {
    Acceptable(text, known, lines, complete) && Keys(lines, KeyOf) == known.Keys
  }

  /** `decisions`, as lines without faults fill it. */
  function Entries(text: Text, known: map<Key, string>, lines: seq<Line>, complete: bool): map<Key, Entry>
    requires forall line | line in lines :: Sound(text, known, line, complete)
  {
    if lines == [] then map[]
    else
      var last := lines[|lines| - 1];
      assert last in lines && Sound(text, known, last, complete);
      Entries(text, known, lines[..|lines| - 1], complete)[last.key := ReadAnswer(text, last, complete).value]
  }

  lemma AcceptableAppend(text: Text, known: map<Key, string>, lines: seq<Line>, line: Line, complete: bool)
    requires Acceptable(text, known, lines, complete)
    ensures Acceptable(text, known, lines + [line], complete) <==>
            ReadLine(text, known, Keys(lines, KeyOf), line, complete).Success?
  {
    ApartAppend(lines, line, KeyOf);
    DistinctPositions(lines, KeyOf);
    DistinctPositions(lines + [line], KeyOf);
    KeysMember(lines, KeyOf, KeyOf(line));
    assert line in lines + [line];
  }

  lemma {:induction false} AcceptablePrefix(text: Text, known: map<Key, string>, lines: seq<Line>, n: nat, complete: bool)
    requires n <= |lines| && Acceptable(text, known, lines, complete)
    ensures Acceptable(text, known, lines[..n], complete)
  {
    DistinctPositions(lines, KeyOf);
    DistinctPositions(lines[..n], KeyOf);
  }

  /** Each line decides its own disagreement. */
  lemma {:induction false} EntriesByLine(text: Text, known: map<Key, string>, lines: seq<Line>, complete: bool)
    requires Acceptable(text, known, lines, complete)
    ensures Entries(text, known, lines, complete).Keys == Keys(lines, KeyOf)
    ensures forall line :: line in lines ==>
              && KeyOf(line) in Entries(text, known, lines, complete) && Sound(text, known, line, complete)
              && Entries(text, known, lines, complete)[KeyOf(line)] == ReadAnswer(text, line, complete).value
  {
    if lines != [] {
      var before, last := lines[..|lines| - 1], lines[|lines| - 1];
      assert lines == before + [last];
      AcceptablePrefix(text, known, lines, |before|, complete);
      EntriesByLine(text, known, before, complete);
      AcceptableAppend(text, known, before, last, complete);
      forall line | line in before ensures KeyOf(line) != KeyOf(last) {
        KeysMember(before, KeyOf, KeyOf(last));
        assert HasKey(before, KeyOf, KeyOf(line));
      }
    }
  }

  /** The lines before this one are in order, and this one has the fault. */
  predicate FirstFault(
    text: Text, known: map<Key, string>, lines: seq<Line>, complete: bool, number: nat, fault: Fault)
  {
    && 2 <= number < |lines| + 2
    && Acceptable(text, known, lines[..number - 2], complete)
    && ReadLine(text, known, Keys(lines[..number - 2], KeyOf), lines[number - 2], complete) == Failure(fault)
  }

  /** `_parse_adjudication_rows`: accepts exactly the accepted sheets, and otherwise names the first fault. */
  method ParseSheet(text: Text, known: map<Key, string>, lines: seq<Line>, complete: bool)
    returns (r: Result<map<Key, Entry>, SheetError>)
    ensures r.Success? <==> Accepted(text, known, lines, complete)
    ensures r.Success? ==> r.value == Entries(text, known, lines, complete)
    ensures r.Failure? && r.error.AtLine? ==> FirstFault(text, known, lines, complete, r.error.number, r.error.fault)
    ensures r.Failure? && r.error.Missing? ==>
              Acceptable(text, known, lines, complete) && r.error.count == |known.Keys - Keys(lines, KeyOf)| > 0
  {
    var decisions: map<Key, Entry> := map[];
    for i := 0 to |lines|
      invariant Parsed(text, known, lines[..i], complete, decisions)
    {
      var read := ReadLine(text, known, decisions.Keys, lines[i], complete);
      if read.Failure? {
        FaultRejects(text, known, lines, i, complete, read.error);
        return Failure(AtLine(i + 2, read.error));
      }
      ParsedNext(text, known, lines[..i], lines[i], complete, decisions);
      TakeNext(lines, i);
      decisions := decisions[KeyOf(lines[i]) := read.value];
    }
    TakeAll(lines);
    var missing := known.Keys - decisions.Keys;
    NoneMissing(text, known, lines, complete);
    r := if missing == {} then Success(decisions) else Failure(Missing(|missing|));
  }

  lemma NoneMissing(text: Text, known: map<Key, string>, lines: seq<Line>, complete: bool)
    requires Acceptable(text, known, lines, complete)
    ensures Accepted(text, known, lines, complete) <==> known.Keys - Keys(lines, KeyOf) == {}
  {
    KeysKnown(text, known, lines, complete);
  }

  lemma FaultRejects(text: Text, known: map<Key, string>, lines: seq<Line>, i: nat, complete: bool, fault: Fault)
    requires i < |lines| && Acceptable(text, known, lines[..i], complete)
    requires ReadLine(text, known, Keys(lines[..i], KeyOf), lines[i], complete) == Failure(fault)
    ensures FirstFault(text, known, lines, complete, i + 2, fault) && !Acceptable(text, known, lines, complete)
  {
    TakeNext(lines, i);
    AcceptableAppend(text, known, lines[..i], lines[i], complete);
    NoFaultBefore(text, known, lines, i + 1, complete);
  }

  /** The lines so far have no fault, and are read. */
  ghost predicate Parsed(text: Text, known: map<Key, string>, lines: seq<Line>, complete: bool, decisions: map<Key, Entry>) {
    && Acceptable(text, known, lines, complete) && decisions == Entries(text, known, lines, complete)
    && decisions.Keys == Keys(lines, KeyOf)
  }

  lemma ParsedNext(
    text: Text, known: map<Key, string>, lines: seq<Line>, line: Line, complete: bool, decisions: map<Key, Entry>)
    requires Parsed(text, known, lines, complete, decisions)
    requires ReadLine(text, known, decisions.Keys, line, complete).Success?
    ensures Parsed(
              text, known, lines + [line], complete,
              decisions[KeyOf(line) := ReadLine(text, known, decisions.Keys, line, complete).value])
  {
    AcceptableAppend(text, known, lines, line, complete);
    EntriesByLine(text, known, lines + [line], complete);
    assert (lines + [line])[..|lines|] == lines;
  }

  lemma NoFaultBefore(text: Text, known: map<Key, string>, lines: seq<Line>, n: nat, complete: bool)
    requires n <= |lines| && !Acceptable(text, known, lines[..n], complete)
    ensures !Acceptable(text, known, lines, complete)
  {
    if Acceptable(text, known, lines, complete) {
      AcceptablePrefix(text, known, lines, n, complete);
    }
  }

  lemma KeysKnown(text: Text, known: map<Key, string>, lines: seq<Line>, complete: bool)
    requires Acceptable(text, known, lines, complete)
    ensures Keys(lines, KeyOf) <= known.Keys
  {
    forall k | k in Keys(lines, KeyOf) ensures k in known {
      KeysMember(lines, KeyOf, k);
      var line :| line in lines && KeyOf(line) == k;
      assert Sound(text, known, line, complete);
    }
  }

  // ---- the order of lines does not matter ----

  /** Permuting the lines changes neither acceptance nor any decision. */
  lemma SheetForgetsOrder(text: Text, known: map<Key, string>, lines: seq<Line>, other: seq<Line>, complete: bool)
    requires multiset(lines) == multiset(other) && Accepted(text, known, lines, complete)
    ensures Accepted(text, known, other, complete)
    ensures Entries(text, known, other, complete) == Entries(text, known, lines, complete)
  {
    SameMembers(lines, other);
    DistinctForgetsOrder(lines, other, KeyOf);
    EntriesByLine(text, known, lines, complete);
    EntriesByLine(text, known, other, complete);
    var a, b := Entries(text, known, lines, complete), Entries(text, known, other, complete);
    forall k | k in a.Keys ensures a[k] == b[k] {
      KeysMember(lines, KeyOf, k);
    }
  }

  // ---- exporting and reading back ----

  /** The sheet as exported: each disagreement with blank answers. */
  function BlankSheet(known: map<Key, string>, order: seq<Key>): (lines: seq<Line>)
    requires forall k :: k in order ==> k in known
    ensures |lines| == |order|
    ensures forall i :: 0 <= i < |order| ==> lines[i] == Line(order[i], known[order[i]], "", "")
  {
    seq(|order|, i requires 0 <= i < |order| => assert order[i] in order; Line(order[i], known[order[i]], "", ""))
  }

  /** The order lists every disagreement once. */
  ghost predicate Lists(order: seq<Key>, known: map<Key, string>) {
    && (forall i, j :: 0 <= i < j < |order| ==> order[i] != order[j])
    && (forall k :: k in order <==> k in known)
  }

  /** Only the two answer columns were edited. */
  ghost predicate Answered(blank: seq<Line>, lines: seq<Line>) {
    |lines| == |blank|
    && forall i {:trigger lines[i]} {:trigger blank[i]} :: 0 <= i < |lines| ==>
         lines[i].Line? && blank[i].Line? && lines[i].key == blank[i].key && lines[i].protected == blank[i].protected
  }

  /** An exported sheet with answers is read back exactly when each answer can be read by itself. */
  lemma AnsweredSheetAccepted(text: Text, known: map<Key, string>, order: seq<Key>, lines: seq<Line>, complete: bool)
    requires Lists(order, known) && Answered(BlankSheet(known, order), lines)
    ensures Accepted(text, known, lines, complete) <==>
            forall i :: 0 <= i < |lines| ==> ReadAnswer(text, lines[i], complete).Success?
  {
    var blank := BlankSheet(known, order);
    forall i | 0 <= i < |lines| ensures lines[i].Line? && lines[i].key == order[i] && lines[i].key in known
                                        && lines[i].protected == known[order[i]]
                                        && (Sound(text, known, lines[i], complete) <==> ReadAnswer(text, lines[i], complete).Success?) {
      assert blank[i] == Line(order[i], known[order[i]], "", "");
      assert order[i] in order;
    }
    DistinctPositions(lines, KeyOf);
    forall k ensures k in Keys(lines, KeyOf) <==> k in known {
      KeysMember(lines, KeyOf, k);
      if k in known {
        var i :| 0 <= i < |order| && order[i] == k;
        assert lines[i] in lines && KeyOf(lines[i]) == k;
      }
    }
    assert Keys(lines, KeyOf) == known.Keys;
    if Accepted(text, known, lines, complete) {
      forall i | 0 <= i < |lines| ensures ReadAnswer(text, lines[i], complete).Success? {
        assert lines[i] in lines;
      }
    }
  }

  /** The sheet as exported is accepted with its decisions open. */
  lemma BlankSheetAccepted(text: Text, known: map<Key, string>, order: seq<Key>)
    requires Lists(order, known) && text.strip("") == "" && text.tidy("") == ""
    ensures Accepted(text, known, BlankSheet(known, order), false)
  {
    var blank := BlankSheet(known, order);
    assert Answered(blank, blank);
    AnsweredSheetAccepted(text, known, order, blank, false);
  }

  /** So adjudication can be resumed from it: every disagreement is there, and every decision is open. */
  lemma BlankSheetResumes(text: Text, known: map<Key, string>, order: seq<Key>, k: Key)
    requires Lists(order, known) && text.strip("") == "" && text.tidy("") == "" && k in known
    ensures Accepted(text, known, BlankSheet(known, order), false)
    ensures k in Entries(text, known, BlankSheet(known, order), false)
    ensures Entries(text, known, BlankSheet(known, order), false)[k] == Entry(None, None)
  {
    BlankSheetAccepted(text, known, order);
    var line := BlankLine(known, order, k);
    EntriesByLine(text, known, BlankSheet(known, order), false);
  }

  lemma BlankLine(known: map<Key, string>, order: seq<Key>, k: Key) returns (line: Line)
    requires Lists(order, known) && k in known
    ensures line in BlankSheet(known, order) && line.Line? && line.key == k && line.grade == "" && line.rationale == ""
  {
    var i :| 0 <= i < |order| && order[i] == k;
    line := BlankSheet(known, order)[i];
  }

  /** In a complete sheet every decision has a grade and a rationale within its bounds. */
  lemma CompleteEntries(text: Text, known: map<Key, string>, lines: seq<Line>, k: Key)
    requires Accepted(text, known, lines, true) && k in known
    ensures k in Entries(text, known, lines, true)
    ensures var e := Entries(text, known, lines, true)[k];
            e.grade.Some? && 0 <= e.grade.value <= 3 && e.rationale.Some? && 10 <= |e.rationale.value| <= 1000
  {
    EntriesByLine(text, known, lines, true);
    KeysMember(lines, KeyOf, k);
  }

  // ---- what a line says, in its columns ----

  /** Both answers are left blank. */
  predicate LeftOpen(text: Text, line: Line)
    requires line.Line?
  {
    text.strip(line.grade) == "" && text.tidy(line.rationale) == ""
  }

  /** A grade from 0 to 3 with a rationale of 10 to 1000 characters. */
  predicate Gives(text: Text, line: Line, grade: int)
    requires line.Line?
  {
    && text.readInt(text.strip(line.grade)) == Some(grade) && 0 <= grade <= 3
    && 10 <= |text.tidy(line.rationale)| <= 1000
  }

  /** An answer is read exactly as it stands: open where that is allowed, or a grade with its rationale. */
  lemma AnswerMeaning(text: Text, line: Line, complete: bool, e: Entry)
    requires line.Line?
    ensures ReadAnswer(text, line, complete) == Success(e) <==>
            || (!complete && LeftOpen(text, line) && e == Entry(None, None))
            || ((complete || text.strip(line.grade) != "") && e.grade.Some? && Gives(text, line, e.grade.value)
                && e.rationale == Some(text.tidy(line.rationale)))
  {
  }

  predicate Unanswered(text: Text, line: Line, complete: bool)
    requires line.Line?
  {
    !complete && text.strip(line.grade) == ""
  }

  /** The line names a disagreement not yet read, and its protected columns came back unchanged. */
  predicate Untouched(known: map<Key, string>, seen: set<Key>, line: Line) {
    line.Line? && line.key in known && line.key !in seen && line.protected == known[line.key]
  }

  /** What is wrong with a line; what comes first in the order of the faults is found first. */
  predicate FaultIs(text: Text, known: map<Key, string>, seen: set<Key>, line: Line, complete: bool, fault: Fault) {
    match fault
    case WrongColumns => line.Torn?
    case UnknownDisagreement => line.Line? && line.key !in known
    case Repeated => line.Line? && line.key in known && line.key in seen
    case ProtectedChanged => line.Line? && line.key in known && line.key !in seen && line.protected != known[line.key]
    case GradeNotInteger =>
      Untouched(known, seen, line) && !Unanswered(text, line, complete) && text.readInt(text.strip(line.grade)).None?
    case GradeOutOfRange =>
      && Untouched(known, seen, line) && !Unanswered(text, line, complete)
      && text.readInt(text.strip(line.grade)).Some? && !(0 <= text.readInt(text.strip(line.grade)).value <= 3)
    case RationaleWithoutGrade => Untouched(known, seen, line) && Unanswered(text, line, complete) && text.tidy(line.rationale) != ""
    case RationaleTooShort => HasGrade(text, known, seen, line, complete) && |text.tidy(line.rationale)| < 10
    case RationaleTooLong => HasGrade(text, known, seen, line, complete) && |text.tidy(line.rationale)| > 1000
  }

  predicate HasGrade(text: Text, known: map<Key, string>, seen: set<Key>, line: Line, complete: bool) {
    && Untouched(known, seen, line) && !Unanswered(text, line, complete)
    && text.readInt(text.strip(line.grade)).Some? && 0 <= text.readInt(text.strip(line.grade)).value <= 3
  }

  /** A line is refused for exactly the fault it has, and otherwise read. */
  lemma LineMeaning(text: Text, known: map<Key, string>, seen: set<Key>, line: Line, complete: bool)
    ensures forall fault ::
              ReadLine(text, known, seen, line, complete) == Failure(fault) <==> FaultIs(text, known, seen, line, complete, fault)
    ensures ReadLine(text, known, seen, line, complete).Success? <==>
              && Untouched(known, seen, line)
              && ((!complete && LeftOpen(text, line))
                  || ((complete || text.strip(line.grade) != "") && exists grade :: Gives(text, line, grade)))
  {
    if line.Line? && text.readInt(text.strip(line.grade)).Some? {
      var grade := text.readInt(text.strip(line.grade)).value;
      assert Gives(text, line, grade) <==> 0 <= grade <= 3 && 10 <= |text.tidy(line.rationale)| <= 1000;
    }
  }
}
