/**
 * The violation extractor: turns the results page into violation records.
 *
 * The page is already parsed. Either it has no element with id `bodyPrint123`
 * (`NoContainer`), or it lists that element's `.form-group` elements in document
 * order. Each group has the text of its `label span` element and the text of its
 * `.col-md-9` element, and either can be missing.
 *
 * The extractor keeps one record under construction. The timestamp label is the
 * boundary: it closes the open record and starts the next one.
 */
module Extractor {
  import opened Wrappers
  import opened Strings
  import opened Violations

  const TIMESTAMP_MARKER := "Thời gian vi phạm"
  const LOCATION_MARKER := "Địa điểm vi phạm"
  const TYPE_MARKER := "Hành vi vi phạm"
  const STATUS_MARKER := "Trạng thái"

  /** One `.form-group`: the label text and the value text, `None` when the element is missing. */
  datatype Group = Group(labelText: Option<string>, valueText: Option<string>)

  /** The parsed results page. */
  datatype Page = NoContainer | Container(groups: seq<Group>)

  datatype Category = Timestamp | Location | ViolationType | Status | Unrecognized

  /** A group that has both a label and a value, with its label classified and its value trimmed. */
  datatype Field = Field(category: Category, value: string)

  /**
   * The category of a trimmed label. A label matches a marker when it contains it;
   * the markers are tried in the order timestamp, location, type, status.
   */
  function Classify(text: string): Category {
    if Contains(text, TIMESTAMP_MARKER) then Timestamp
    else if Contains(text, LOCATION_MARKER) then Location
    else if Contains(text, TYPE_MARKER) then ViolationType
    else if Contains(text, STATUS_MARKER) then Status
    else Unrecognized
  }

  /** Which category a label gets, marker by marker, the earlier markers taking priority. */
  lemma ClassifyPriority(text: string)
    ensures Classify(text) == Timestamp <==> Contains(text, TIMESTAMP_MARKER)
    ensures Classify(text) == Location <==>
              !Contains(text, TIMESTAMP_MARKER) && Contains(text, LOCATION_MARKER)
    ensures Classify(text) == ViolationType <==>
              !Contains(text, TIMESTAMP_MARKER) && !Contains(text, LOCATION_MARKER)
              && Contains(text, TYPE_MARKER)
    ensures Classify(text) == Status <==>
              !Contains(text, TIMESTAMP_MARKER) && !Contains(text, LOCATION_MARKER)
              && !Contains(text, TYPE_MARKER) && Contains(text, STATUS_MARKER)
    ensures Classify(text) == Unrecognized <==>
              !Contains(text, TIMESTAMP_MARKER) && !Contains(text, LOCATION_MARKER)
              && !Contains(text, TYPE_MARKER) && !Contains(text, STATUS_MARKER)
  {
  }

  /**
   * Labels are matched by containment, so text around a recognized label never
   * makes it unrecognized, and a timestamp label stays a timestamp.
   */
  lemma ClassifyInContext(a: string, text: string, b: string)
    ensures Classify(text) != Unrecognized ==> Classify(a + text + b) != Unrecognized
    ensures Classify(text) == Timestamp ==> Classify(a + text + b) == Timestamp
  {
    if Contains(text, TIMESTAMP_MARKER) {
      ContainsWithin(a, text, b, TIMESTAMP_MARKER);
    } else if Contains(text, LOCATION_MARKER) {
      ContainsWithin(a, text, b, LOCATION_MARKER);
    } else if Contains(text, TYPE_MARKER) {
      ContainsWithin(a, text, b, TYPE_MARKER);
    } else if Contains(text, STATUS_MARKER) {
      ContainsWithin(a, text, b, STATUS_MARKER);
    }
  }

  /** Each marker on its own is classified as its own category. */
  lemma ClassifyMarkers()
    ensures Classify(TIMESTAMP_MARKER) == Timestamp
    ensures Classify(LOCATION_MARKER) == Location
    ensures Classify(TYPE_MARKER) == ViolationType
    ensures Classify(STATUS_MARKER) == Status
  {
    ContainsSelf(TIMESTAMP_MARKER);
    ContainsSelf(LOCATION_MARKER);
    ContainsSelf(TYPE_MARKER);
    ContainsSelf(STATUS_MARKER);
    NotContainsLonger(LOCATION_MARKER, TIMESTAMP_MARKER);
    NotContainsLonger(TYPE_MARKER, TIMESTAMP_MARKER);
    NotContainsLonger(TYPE_MARKER, LOCATION_MARKER);
    NotContainsLonger(STATUS_MARKER, TIMESTAMP_MARKER);
    NotContainsLonger(STATUS_MARKER, LOCATION_MARKER);
    NotContainsLonger(STATUS_MARKER, TYPE_MARKER);
  }

  /** The field a group contributes; a group missing its label or its value contributes none. */
  function FieldOf(g: Group): Option<Field> {
    if g.labelText.Some? && g.valueText.Some? then
      Some(Field(Classify(Trim(g.labelText.value)), Trim(g.valueText.value)))
    else
      None
  }

  /** A group that has both parts and whose label contains the timestamp marker. */
  predicate IsTimestampGroup(g: Group) {
    g.labelText.Some? && g.valueText.Some? && Contains(Trim(g.labelText.value), TIMESTAMP_MARKER)
  }

  /** Sets the field of `v` that `f` names; an unrecognized field changes nothing. */
  function Update(v: Violation, f: Field): Violation {
    match f.category
    case Timestamp => v.(dateTime := Some(f.value))
    case Location => v.(location := Some(f.value))
    case ViolationType => v.(violationType := Some(f.value))
    case Status => v.(status := Some(f.value))
    case Unrecognized => v
  }

  /** The accepted groups' fields, in document order. */
  function Fields(gs: seq<Group>): seq<Field>
    decreases |gs|
  {
    if gs == [] then [] else Fields(gs[..|gs| - 1]) + Accepted(gs[|gs| - 1])
  }

  function Accepted(g: Group): seq<Field> {
    match FieldOf(g)
    case None => []
    case Some(f) => [f]
  }

  // ---------------------------------------------------------------------------
  // The state machine
  // ---------------------------------------------------------------------------

  /** The records emitted so far and the record under construction. */
  datatype State = State(done: seq<Violation>, current: Violation)

  const Initial := State([], Blank)

  /** One accepted field: a timestamp first closes a record that already has one. */
  function Apply(st: State, f: Field): State {
    if f.category == Timestamp && st.current.dateTime.Some? then
      State(st.done + [st.current], Update(Blank, f))
    else
      State(st.done, Update(st.current, f))
  }

  /** One group: a group missing its label or its value leaves the state as it is. */
  function Step(st: State, g: Group): State {
    match FieldOf(g)
    case None => st
    case Some(f) => Apply(st, f)
  }

  /** The state after the fields `fs`, one at a time, starting from `st`. */
  function ApplyAll(st: State, fs: seq<Field>): State
    decreases |fs|
  {
    if fs == [] then st else Apply(ApplyAll(st, fs[..|fs| - 1]), fs[|fs| - 1])
  }

  /** The open record is emitted at the end only if it has a timestamp. */
  function Finish(st: State): seq<Violation> {
    if st.current.dateTime.Some? then st.done + [st.current] else st.done
  }

  /** What the extractor returns for a page. */
  function Extract(page: Page): seq<Violation> {
    match page
    case NoContainer => []
    case Container(gs) => Finish(ApplyAll(Initial, Fields(gs)))
  }

  // ---------------------------------------------------------------------------
  // A reference definition: records as segments of the accepted fields
  // ---------------------------------------------------------------------------

  /** The value of the last field of category `c`, if any. */
  function LastValue(fs: seq<Field>, c: Category): Option<string>
    decreases |fs|
  {
    if fs == [] then None
    else if fs[|fs| - 1].category == c then Some(fs[|fs| - 1].value)
    else LastValue(fs[..|fs| - 1], c)
  }

  /** The record one segment describes: for each field, the last value given for it. */
  function Assemble(fs: seq<Field>): Violation {
    Violation(LastValue(fs, Timestamp), LastValue(fs, Location),
              LastValue(fs, ViolationType), LastValue(fs, Status))
  }

  /**
   * Where the segment of the last record starts: at the last timestamp, unless no
   * timestamp precedes it, in which case the fields before it belong to it as well.
   */
  function Cut(fs: seq<Field>): (k: nat)
    ensures k <= |fs|
    ensures LastValue(fs, Timestamp).None? ==> k == 0
    ensures LastValue(fs, Timestamp).Some? ==> k < |fs|
    ensures k > 0 ==> LastValue(fs[..k], Timestamp).Some?
    decreases |fs|
  {
    if fs == [] then 0
    else if fs[|fs| - 1].category == Timestamp then
      if LastValue(fs[..|fs| - 1], Timestamp).Some? then |fs| - 1 else 0
    else
      var k := Cut(fs[..|fs| - 1]);
      assert fs[..|fs| - 1][..k] == fs[..k];
      k
  }

  /**
   * The records the fields describe: one per timestamp, made of the fields from that
   * timestamp up to the next, with the fields before the first timestamp joining the
   * first record. Without a timestamp there is no record.
   */
  function Records(fs: seq<Field>): seq<Violation>
    decreases |fs|
  {
    if LastValue(fs, Timestamp).None? then []
    else Records(fs[..Cut(fs)]) + [Assemble(fs[Cut(fs)..])]
  }

  /** The timestamp values, in document order. */
  function Stamps(fs: seq<Field>): seq<string>
    decreases |fs|
  {
    if fs == [] then []
    else
      Stamps(fs[..|fs| - 1])
      + if fs[|fs| - 1].category == Timestamp then [fs[|fs| - 1].value] else []
  }

  /** How many groups the extractor accepts as timestamps. */
  function CountTimestampGroups(gs: seq<Group>): nat
    decreases |gs|
  {
    if gs == [] then 0
    else CountTimestampGroups(gs[..|gs| - 1]) + if IsTimestampGroup(gs[|gs| - 1]) then 1 else 0
  }

  // ---------------------------------------------------------------------------
  // Facts about fields
  // ---------------------------------------------------------------------------

  lemma FieldsSnoc(gs: seq<Group>, g: Group)
    ensures Fields(gs + [g]) == Fields(gs) + Accepted(g)
  {
    assert (gs + [g])[..|gs|] == gs;
  }

  lemma FieldsPrefix(gs: seq<Group>, i: nat)
    requires i < |gs|
    ensures Fields(gs[..i + 1]) == Fields(gs[..i]) + Accepted(gs[i])
  {
    assert gs[..i + 1][..i] == gs[..i];
  }

  lemma {:induction false} FieldsAppend(a: seq<Group>, b: seq<Group>)
    ensures Fields(a + b) == Fields(a) + Fields(b)
    decreases |b|
  {
    if b == [] {
      assert a + b == a;
    } else {
      var b', x := b[..|b| - 1], b[|b| - 1];
      assert b' + [x] == b;
      calc {
        Fields(a + b);
        { assert a + b == (a + b') + [x]; }
        Fields((a + b') + [x]);
        { FieldsSnoc(a + b', x); }
        Fields(a + b') + Accepted(x);
        { FieldsAppend(a, b'); }
        Fields(a) + Fields(b') + Accepted(x);
        { FieldsSnoc(b', x); }
        Fields(a) + Fields(b);
      }
    }
  }

  /** The fields of a page with one group singled out. */
  lemma FieldsAround(a: seq<Group>, g: Group, b: seq<Group>)
    ensures Fields(a + [g] + b) == Fields(a) + Accepted(g) + Fields(b)
  {
    FieldsAppend(a + [g], b);
    FieldsSnoc(a, g);
  }

  lemma {:induction false} ApplyAllAppend(st: State, a: seq<Field>, b: seq<Field>)
    ensures ApplyAll(st, a + b) == ApplyAll(ApplyAll(st, a), b)
    decreases |b|
  {
    if b == [] {
      assert a + b == a;
    } else {
      var b' := b[..|b| - 1];
      ApplyAllAppend(st, a, b');
      assert (a + b)[..|a + b| - 1] == a + b';
    }
  }

  lemma ApplyAllSnoc(st: State, fs: seq<Field>, f: Field)
    ensures ApplyAll(st, fs + [f]) == Apply(ApplyAll(st, fs), f)
  {
    assert (fs + [f])[..|fs|] == fs;
  }

  // ---------------------------------------------------------------------------
  // The state machine computes the reference records
  // ---------------------------------------------------------------------------

  lemma AssembleSnoc(fs: seq<Field>, f: Field)
    ensures Assemble(fs + [f]) == Update(Assemble(fs), f)
  {
    assert (fs + [f])[..|fs|] == fs;
  }

  lemma {:induction false} CutKeepsTimestamp(fs: seq<Field>)
    ensures LastValue(fs[Cut(fs)..], Timestamp) == LastValue(fs, Timestamp)
    decreases |fs|
  {
    if fs == [] {
    } else if fs[|fs| - 1].category == Timestamp {
      var tail := fs[Cut(fs)..];
      assert tail[..|tail| - 1] + [tail[|tail| - 1]] == tail;
      assert tail[|tail| - 1] == fs[|fs| - 1];
    } else {
      var init := fs[..|fs| - 1];
      var k := Cut(init);
      CutKeepsTimestamp(init);
      assert fs[k..] == init[k..] + [fs[|fs| - 1]];
      assert fs[k..][..|fs[k..]| - 1] == init[k..];
    }
  }

  /** The state the reference assigns to a field sequence: closed records and the open one. */
  function Shape(fs: seq<Field>): State {
    State(Records(fs[..Cut(fs)]), Assemble(fs[Cut(fs)..]))
  }

  /** Appending one accepted field to the reference matches one transition. */
  lemma SnocShape(fs: seq<Field>, f: Field)
    ensures Apply(Shape(fs), f) == Shape(fs + [f])
  {
    var fs' := fs + [f];
    var k := Cut(fs);
    assert fs'[..|fs'| - 1] == fs;
    CutKeepsTimestamp(fs);
    if f.category != Timestamp {
      assert Cut(fs') == k;
      assert fs'[..k] == fs[..k];
      assert fs'[k..] == fs[k..] + [f];
      AssembleSnoc(fs[k..], f);
    } else if LastValue(fs, Timestamp).None? {
      assert Cut(fs') == 0 && k == 0;
      assert fs'[0..] == fs + [f] && fs[0..] == fs;
      AssembleSnoc(fs, f);
    } else {
      assert Cut(fs') == |fs|;
      assert fs'[..|fs|] == fs;
      assert fs'[|fs|..] == [] + [f];
      AssembleSnoc([], f);
    }
  }

  /** After any prefix of the fields, the state machine is where the reference says. */
  lemma {:induction false} ApplyAllShape(fs: seq<Field>)
    ensures ApplyAll(Initial, fs) == Shape(fs)
    decreases |fs|
  {
    if fs != [] {
      var init := fs[..|fs| - 1];
      ApplyAllShape(init);
      SnocShape(init, fs[|fs| - 1]);
      assert init + [fs[|fs| - 1]] == fs;
    }
  }

  /** The extractor's output is exactly the reference records of the accepted fields. */
  lemma ExtractIsRecords(gs: seq<Group>)
    ensures Extract(Container(gs)) == Records(Fields(gs))
  {
    var fs := Fields(gs);
    ApplyAllShape(fs);
    CutKeepsTimestamp(fs);
  }

  // ---------------------------------------------------------------------------
  // Counting and ordering of the emitted records
  // ---------------------------------------------------------------------------

  lemma {:induction false} StampsAppend(a: seq<Field>, b: seq<Field>)
    ensures Stamps(a + b) == Stamps(a) + Stamps(b)
    decreases |b|
  {
    if b == [] {
      assert a + b == a;
    } else {
      var b' := b[..|b| - 1];
      StampsAppend(a, b');
      assert (a + b)[..|a + b| - 1] == a + b';
    }
  }

  /** A group yields a timestamp exactly when it is a timestamp group. */
  lemma GroupStamps(g: Group)
    ensures Stamps(Accepted(g)) == if IsTimestampGroup(g) then [Trim(g.valueText.value)] else []
  {
    if FieldOf(g).Some? {
      ClassifyPriority(Trim(g.labelText.value));
      assert [FieldOf(g).value][..0] == [];
    }
  }

  lemma {:induction false} StampsCount(gs: seq<Group>)
    ensures |Stamps(Fields(gs))| == CountTimestampGroups(gs)
    decreases |gs|
  {
    if gs != [] {
      var init, g := gs[..|gs| - 1], gs[|gs| - 1];
      assert init + [g] == gs;
      FieldsSnoc(init, g);
      StampsAppend(Fields(init), Accepted(g));
      GroupStamps(g);
      StampsCount(init);
    }
  }

  /** What the loop keeps about timestamps: every one ends up, in order, in a record. */
  ghost predicate StampInvariant(st: State, fs: seq<Field>) {
    var stamps := Stamps(fs);
    |st.done| + (if st.current.dateTime.Some? then 1 else 0) == |stamps|
    && (|stamps| > 0 ==> st.current.dateTime.Some?)
    && (forall i :: 0 <= i < |st.done| ==> st.done[i].dateTime == Some(stamps[i]))
    && (st.current.dateTime.Some? ==> st.current.dateTime == Some(stamps[|st.done|]))
  }

  lemma ApplyStamps(st: State, fs: seq<Field>, f: Field)
    requires StampInvariant(st, fs)
    ensures StampInvariant(Apply(st, f), fs + [f])
  {
    var fs' := fs + [f];
    assert fs'[..|fs'| - 1] == fs;
    var stamps, stamps' := Stamps(fs), Stamps(fs');
    assert stamps' == stamps + if f.category == Timestamp then [f.value] else [];
  }

  lemma {:induction false} ApplyAllStamps(fs: seq<Field>)
    ensures StampInvariant(ApplyAll(Initial, fs), fs)
    decreases |fs|
  {
    if fs != [] {
      var init := fs[..|fs| - 1];
      ApplyAllStamps(init);
      ApplyStamps(ApplyAll(Initial, init), init, fs[|fs| - 1]);
      assert init + [fs[|fs| - 1]] == fs;
    }
  }

  /** The records emitted for some fields carry their timestamps, one each, in order. */
  lemma FinishStamps(fs: seq<Field>)
    ensures |Finish(ApplyAll(Initial, fs))| == |Stamps(fs)|
    ensures forall i :: 0 <= i < |Finish(ApplyAll(Initial, fs))| ==>
              Finish(ApplyAll(Initial, fs))[i].dateTime == Some(Stamps(fs)[i])
  {
    ApplyAllStamps(fs);
  }

  /**
   * One record per accepted timestamp group, in document order: the i-th record's
   * timestamp is the i-th timestamp value, so no record lacks a timestamp, and a page
   * without timestamps yields no record at all.
   */
  lemma ExtractTimestamps(gs: seq<Group>)
    ensures |Extract(Container(gs))| == CountTimestampGroups(gs)
    ensures |Stamps(Fields(gs))| == CountTimestampGroups(gs)
    ensures forall i :: 0 <= i < |Extract(Container(gs))| ==>
              Extract(Container(gs))[i].dateTime == Some(Stamps(Fields(gs))[i])
  {
    FinishStamps(Fields(gs));
    StampsCount(gs);
  }

  /** No emitted record has a null timestamp, whatever the page. */
  lemma ExtractAllStamped(page: Page)
    ensures forall v :: v in Extract(page) ==> v.dateTime.Some?
  {
    if page.Container? {
      ExtractTimestamps(page.groups);
    }
  }

  // ---------------------------------------------------------------------------
  // Groups that change nothing, last write wins, the opening record
  // ---------------------------------------------------------------------------

  /** An unrecognized field can be dropped without changing the state reached. */
  lemma IgnoredField(fa: seq<Field>, u: Field, fb: seq<Field>)
    requires u.category == Unrecognized
    ensures ApplyAll(Initial, fa + [u] + fb) == ApplyAll(Initial, fa + fb)
  {
    ApplyAllAppend(Initial, fa + [u], fb);
    ApplyAllAppend(Initial, fa, fb);
    ApplyAllSnoc(Initial, fa, u);
  }

  /**
   * A group missing its label or value, or with a label of no known category,
   * can be removed from the page without changing the result.
   */
  lemma IgnoredGroup(a: seq<Group>, g: Group, b: seq<Group>)
    requires FieldOf(g).None? || FieldOf(g).value.category == Unrecognized
    ensures Extract(Container(a + [g] + b)) == Extract(Container(a + b))
  {
    FieldsAround(a, g, b);
    FieldsAppend(a, b);
    if FieldOf(g).Some? {
      IgnoredField(Fields(a), FieldOf(g).value, Fields(b));
    } else {
      assert Fields(a) + [] + Fields(b) == Fields(a) + Fields(b);
    }
  }

  /** Once a record is open, a non-timestamp field overwrites that field of the last record. */
  lemma OverwriteField(fs: seq<Field>, f: Field)
    requires ApplyAll(Initial, fs).current.dateTime.Some?
    requires f.category in {Location, ViolationType, Status}
    ensures
      var before, after := Finish(ApplyAll(Initial, fs)), Finish(ApplyAll(Initial, fs + [f]));
      |before| > 0 && |after| == |before|
      && after[..|after| - 1] == before[..|before| - 1]
      && after[|after| - 1] == Update(before[|before| - 1], f)
  {
    ApplyAllSnoc(Initial, fs, f);
  }

  /**
   * Once a record is open, a location, type or status group overwrites that field
   * of the last record and changes nothing else.
   */
  lemma LastWriteWins(gs: seq<Group>, g: Group)
    requires CountTimestampGroups(gs) > 0
    requires FieldOf(g).Some? && FieldOf(g).value.category in {Location, ViolationType, Status}
    ensures
      var before, after := Extract(Container(gs)), Extract(Container(gs + [g]));
      |before| > 0 && |after| == |before|
      && after[..|after| - 1] == before[..|before| - 1]
      && after[|after| - 1] == Update(before[|before| - 1], FieldOf(g).value)
  {
    var fs := Fields(gs);
    ApplyAllStamps(fs);
    StampsCount(gs);
    FieldsSnoc(gs, g);
    OverwriteField(fs, FieldOf(g).value);
  }

  /**
   * A timestamp group that arrives while the open record has a timestamp emits that
   * record and opens a new one holding only the new timestamp.
   */
  lemma BoundaryOpensFreshRecord(gs: seq<Group>, g: Group)
    requires IsTimestampGroup(g)
    requires ApplyAll(Initial, Fields(gs)).current.dateTime.Some?
    ensures
      var st, st' := ApplyAll(Initial, Fields(gs)), ApplyAll(Initial, Fields(gs + [g]));
      st'.done == st.done + [st.current]
      && st'.current == Violation(Some(Trim(g.valueText.value)), None, None, None)
  {
    ClassifyPriority(Trim(g.labelText.value));
    FieldsSnoc(gs, g);
    ApplyAllSnoc(Initial, Fields(gs), FieldOf(g).value);
  }

  /**
   * With a single timestamp on the page, every field goes to the one record, including
   * the fields that come before the timestamp.
   */
  lemma SingleRecord(gs: seq<Group>)
    requires CountTimestampGroups(gs) == 1
    ensures Extract(Container(gs)) == [Assemble(Fields(gs))]
  {
    var fs := Fields(gs);
    ExtractTimestamps(gs);
    ApplyAllShape(fs);
    CutKeepsTimestamp(fs);
    assert Cut(fs) == 0;
    assert fs[0..] == fs;
  }

  /** A group whose parts have nothing to trim contributes them as they are. */
  lemma PlainGroup(labelText: string, valueText: string)
    requires Untrimmed(labelText) && Untrimmed(valueText)
    ensures Accepted(Group(Some(labelText), Some(valueText))) == [Field(Classify(labelText), valueText)]
  {
    TrimUntouched(labelText);
    TrimUntouched(valueText);
  }

  /** The labels of the four kinds, as a results page spells them. */
  datatype Labels = Labels(timestamp: string, location: string, violationType: string, status: string)

  /** Labels with nothing to trim, each classified as its own kind. */
  predicate Recognized(l: Labels) {
    Untrimmed(l.timestamp) && Classify(l.timestamp) == Timestamp
    && Untrimmed(l.location) && Classify(l.location) == Location
    && Untrimmed(l.violationType) && Classify(l.violationType) == ViolationType
    && Untrimmed(l.status) && Classify(l.status) == Status
  }

  /** The markers themselves are such labels. */
  lemma MarkersRecognized()
    ensures Recognized(Labels(TIMESTAMP_MARKER, LOCATION_MARKER, TYPE_MARKER, STATUS_MARKER))
  {
    ClassifyMarkers();
  }

  /** A page of two violations: one with all four fields, then one with only a timestamp and a status. */
  function ExamplePage(l: Labels, d1: string, place: string, kind: string, s1: string,
                       d2: string, s2: string): seq<Group>
  {
    [Group(Some(l.timestamp), Some(d1)), Group(Some(l.location), Some(place)),
     Group(Some(l.violationType), Some(kind)), Group(Some(l.status), Some(s1)),
     Group(Some(l.timestamp), Some(d2)), Group(Some(l.status), Some(s2))]
  }

  lemma FieldsOfThree(g1: Group, g2: Group, g3: Group)
    ensures Fields([g1, g2, g3]) == Accepted(g1) + Accepted(g2) + Accepted(g3)
  {
    FieldsSnoc([], g1);
    FieldsSnoc([g1], g2);
    FieldsSnoc([g1, g2], g3);
    assert [] + [g1] == [g1];
    assert [g1] + [g2] == [g1, g2];
    assert [g1, g2] + [g3] == [g1, g2, g3];
  }

  lemma ExampleFields(l: Labels, d1: string, place: string, kind: string, s1: string,
                      d2: string, s2: string)
    requires Recognized(l)
    requires Untrimmed(d1) && Untrimmed(place) && Untrimmed(kind)
    requires Untrimmed(s1) && Untrimmed(d2) && Untrimmed(s2)
    ensures Fields(ExamplePage(l, d1, place, kind, s1, d2, s2)) ==
              [Field(Timestamp, d1), Field(Location, place), Field(ViolationType, kind),
               Field(Status, s1), Field(Timestamp, d2), Field(Status, s2)]
  {
    var g1, g2 := Group(Some(l.timestamp), Some(d1)), Group(Some(l.location), Some(place));
    var g3, g4 := Group(Some(l.violationType), Some(kind)), Group(Some(l.status), Some(s1));
    var g5, g6 := Group(Some(l.timestamp), Some(d2)), Group(Some(l.status), Some(s2));
    PlainGroup(l.timestamp, d1);
    PlainGroup(l.location, place);
    PlainGroup(l.violationType, kind);
    PlainGroup(l.status, s1);
    PlainGroup(l.timestamp, d2);
    PlainGroup(l.status, s2);
    FieldsOfThree(g1, g2, g3);
    FieldsOfThree(g4, g5, g6);
    FieldsAppend([g1, g2, g3], [g4, g5, g6]);
    assert [g1, g2, g3] + [g4, g5, g6] == ExamplePage(l, d1, place, kind, s1, d2, s2);
  }

  /**
   * The second timestamp closes the first record, which has all four fields; the
   * second record has only its timestamp and its status.
   */
  lemma TwoRecordExample(l: Labels, d1: string, place: string, kind: string, s1: string,
                         d2: string, s2: string)
    requires Recognized(l)
    requires Untrimmed(d1) && Untrimmed(place) && Untrimmed(kind)
    requires Untrimmed(s1) && Untrimmed(d2) && Untrimmed(s2)
    ensures Extract(Container(ExamplePage(l, d1, place, kind, s1, d2, s2))) ==
              [Violation(Some(d1), Some(place), Some(kind), Some(s1)),
               Violation(Some(d2), None, None, Some(s2))]
  {
    ExampleFields(l, d1, place, kind, s1, d2, s2);
    TwoRecordRun(Field(Timestamp, d1), Field(Location, place), Field(ViolationType, kind),
                 Field(Status, s1), Field(Timestamp, d2), Field(Status, s2));
  }

  lemma TwoRecordRun(f1: Field, f2: Field, f3: Field, f4: Field, f5: Field, f6: Field)
    requires f1.category == Timestamp && f2.category == Location
    requires f3.category == ViolationType && f4.category == Status
    requires f5.category == Timestamp && f6.category == Status
    ensures Finish(ApplyAll(Initial, [f1, f2, f3, f4, f5, f6])) ==
              [Violation(Some(f1.value), Some(f2.value), Some(f3.value), Some(f4.value)),
               Violation(Some(f5.value), None, None, Some(f6.value))]
  {
    var first := Violation(Some(f1.value), Some(f2.value), Some(f3.value), Some(f4.value));
    FirstRecordRun(f1, f2, f3, f4);
    ApplyAllAppend(Initial, [f1, f2, f3, f4], [f5, f6]);
    ApplyAllSnoc(State([], first), [], f5);
    ApplyAllSnoc(State([], first), [f5], f6);
    assert [] + [f5] == [f5];
    assert [f5] + [f6] == [f5, f6];
    assert [f1, f2, f3, f4] + [f5, f6] == [f1, f2, f3, f4, f5, f6];
  }

  lemma FirstRecordRun(f1: Field, f2: Field, f3: Field, f4: Field)
    requires f1.category == Timestamp && f2.category == Location
    requires f3.category == ViolationType && f4.category == Status
    ensures ApplyAll(Initial, [f1, f2, f3, f4]) ==
              State([], Violation(Some(f1.value), Some(f2.value), Some(f3.value), Some(f4.value)))
  {
    var s1 := State([], Violation(Some(f1.value), None, None, None));
    var s2 := State([], s1.current.(location := Some(f2.value)));
    var s3 := State([], s2.current.(violationType := Some(f3.value)));
    ApplyAllSnoc(Initial, [], f1);
    assert [] + [f1] == [f1];
    assert ApplyAll(Initial, [f1]) == s1;
    ApplyAllSnoc(Initial, [f1], f2);
    assert [f1] + [f2] == [f1, f2];
    assert ApplyAll(Initial, [f1, f2]) == s2;
    ApplyAllSnoc(Initial, [f1, f2], f3);
    assert [f1, f2] + [f3] == [f1, f2, f3];
    assert ApplyAll(Initial, [f1, f2, f3]) == s3;
    ApplyAllSnoc(Initial, [f1, f2, f3], f4);
    assert [f1, f2, f3] + [f4] == [f1, f2, f3, f4];
  }

  // ---------------------------------------------------------------------------
  // The extractor as the service runs it
  // ---------------------------------------------------------------------------

  /** Calls the setter that the field's category selects; an unrecognized field sets nothing. */
  method SetField(record: TrafficViolation, f: Field)
    modifies record
    ensures record.Value() == Update(old(record.Value()), f)
  {
    match f.category
    case Timestamp => record.SetDateTime(Some(f.value));
    case Location => record.SetLocation(Some(f.value));
    case ViolationType => record.SetViolationType(Some(f.value));
    case Status => record.SetStatus(Some(f.value));
    case Unrecognized =>
  }

  /** The objects hold the model state: the emitted records, then the open one apart from them. */
  ghost predicate Mirrors(violations: seq<TrafficViolation>, current: TrafficViolation, st: State)
    reads violations, current
  {
    current !in violations && |violations| == |st.done|
    && (forall k :: 0 <= k < |violations| ==> violations[k].Value() == st.done[k])
    && current.Value() == st.current
  }

  /**
   * The body of the extractor's loop for one group: skip it if a part is missing;
   * otherwise emit the open record on a repeated timestamp, then set the field.
   * `fs` are the fields accepted before this group.
   */
  method VisitGroup(violations: seq<TrafficViolation>, current: TrafficViolation, group: Group,
                    ghost fs: seq<Field>)
    returns (violations': seq<TrafficViolation>, current': TrafficViolation)
    requires Mirrors(violations, current, ApplyAll(Initial, fs))
    modifies current
    ensures Mirrors(violations', current', ApplyAll(Initial, fs + Accepted(group)))
    ensures violations' == violations || violations' == violations + [current]
    ensures current' == current || (fresh(current') && violations' == violations + [current])
  {
    StepAccepted(ApplyAll(Initial, fs), fs, group);
    violations', current' := violations, current;
    if group.labelText.None? || group.valueText.None? {
      return;
    }
    var labelText := Trim(group.labelText.value);
    var value := Trim(group.valueText.value);
    var category := Classify(labelText);
    if category == Timestamp && current.GetDateTime().Some? {
      violations' := violations + [current];
      current' := new TrafficViolation.Empty();
    }
    SetField(current', Field(category, value));
  }

  lemma StepAccepted(st: State, fs: seq<Field>, g: Group)
    requires st == ApplyAll(Initial, fs)
    ensures Step(st, g) == ApplyAll(Initial, fs + Accepted(g))
  {
    if FieldOf(g).Some? {
      ApplyAllSnoc(Initial, fs, FieldOf(g).value);
    } else {
      assert fs + [] == fs;
    }
  }

  /**
   * Walks the groups with one mutable record under construction. The records are
   * new objects, pairwise distinct, and hold exactly the values `Extract` gives.
   */
  method ExtractTrafficViolations(page: Page) returns (violations: seq<TrafficViolation>)
    ensures page.NoContainer? ==> violations == []
    ensures |violations| == |Extract(page)|
    ensures forall k :: 0 <= k < |violations| ==> violations[k].Value() == Extract(page)[k]
    ensures forall k :: 0 <= k < |violations| ==> fresh(violations[k])
    ensures forall j, k :: 0 <= j < k < |violations| ==> violations[j] != violations[k]
  {
    violations := [];
    if page.NoContainer? {
      return;
    }
    var current := new TrafficViolation.Empty();
    var groups := page.groups;
    var i := 0;
    while i < |groups|
      invariant 0 <= i <= |groups|
      invariant Mirrors(violations, current, ApplyAll(Initial, Fields(groups[..i])))
      invariant fresh(current)
      invariant forall k :: 0 <= k < |violations| ==> fresh(violations[k])
      invariant forall j, k :: 0 <= j < k < |violations| ==> violations[j] != violations[k]
    {
      violations, current := VisitGroup(violations, current, groups[i], Fields(groups[..i]));
      FieldsPrefix(groups, i);
      i := i + 1;
    }
    assert groups[..i] == groups;
    if current.GetDateTime().Some? {
      violations := violations + [current];
    }
  }
}
