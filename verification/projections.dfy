/**
 * The read-only views the two dashboards compute by filtering the store's
 * collections (src/components/DoctorDashboard.tsx and
 * src/components/PatientDashboard.tsx). Each keeps insertion order.
 */
module Projections {
  import opened Wrappers
  import opened Records
  import opened Seqs

  // ---- Doctor side ----

  /** The tests the doctor created. */
  function DoctorTests(tests: seq<Test>, doctorId: string): (r: seq<Test>)
    ensures forall t :: t in r <==> t in tests && t.doctorId == doctorId
    ensures forall t :: multiset(r)[t] == if t.doctorId == doctorId then multiset(tests)[t] else 0
    ensures SubsequenceOf(r, tests)
  {
    FilterIsSubsequence(tests, (t: Test) => t.doctorId == doctorId);
    Filter(tests, (t: Test) => t.doctorId == doctorId)
  }

  /** The care tips the doctor wrote. */
  function DoctorTips(tips: seq<CareTip>, doctorId: string): (r: seq<CareTip>)
    ensures forall t :: t in r <==> t in tips && t.doctorId == doctorId
    ensures forall t :: multiset(r)[t] == if t.doctorId == doctorId then multiset(tips)[t] else 0
    ensures SubsequenceOf(r, tips)
  {
    FilterIsSubsequence(tips, (t: CareTip) => t.doctorId == doctorId);
    Filter(tips, (t: CareTip) => t.doctorId == doctorId)
  }

  /** The message involves the user as sender or receiver. */
  predicate Involves(m: Message, userId: string)
  {
    m.senderId == userId || m.receiverId == userId
  }

  /** A user's inbox: every message the user sent or received. Both dashboards use it. */
  function Inbox(messages: seq<Message>, userId: string): (r: seq<Message>)
    ensures forall m :: m in r <==> m in messages && Involves(m, userId)
    ensures forall m :: multiset(r)[m] == if Involves(m, userId) then multiset(messages)[m] else 0
    ensures SubsequenceOf(r, messages)
  {
    FilterIsSubsequence(messages, (m: Message) => Involves(m, userId));
    Filter(messages, (m: Message) => Involves(m, userId))
  }

  /** The user is a patient whose single assigned id is the doctor's id. */
  predicate AssignedToDoctor(u: User, doctorId: string)
  {
    u.role == Patient && u.assignedTo == AssignedTo(doctorId)
  }

  /** The patients assigned to the doctor, as offered in the patient picker. */
  function AssignedPatients(users: seq<User>, doctorId: string): (r: seq<User>)
    ensures forall u :: u in r <==> u in users && u.role == Patient && u.assignedTo == AssignedTo(doctorId)
    ensures forall u :: multiset(r)[u] == if AssignedToDoctor(u, doctorId) then multiset(users)[u] else 0
    ensures SubsequenceOf(r, users)
  {
    FilterIsSubsequence(users, (u: User) => AssignedToDoctor(u, doctorId));
    Filter(users, (u: User) => AssignedToDoctor(u, doctorId))
  }

  /** A patient is selected: the selection is present and not the empty string. */
  predicate HasSelection(selected: Option<string>)
  {
    selected.Some? && selected.value != ""
  }

  /** The message goes from `a` to `b` or from `b` to `a`. */
  predicate Between(m: Message, a: string, b: string)
  {
    (m.senderId == a && m.receiverId == b) || (m.senderId == b && m.receiverId == a)
  }

  /**
   * The conversation with the selected patient: the doctor's inbox narrowed
   * to the messages exchanged with that patient; empty with no selection.
   */
  function Conversation(messages: seq<Message>, doctorId: string, selected: Option<string>): (r: seq<Message>)
    ensures !HasSelection(selected) ==> r == []
    ensures HasSelection(selected) ==> SubsequenceOf(r, Inbox(messages, doctorId))
    ensures HasSelection(selected) ==>
      forall m :: m in r <==> m in messages && Between(m, doctorId, selected.value)
    ensures HasSelection(selected) ==>
      forall m :: multiset(r)[m] == if Between(m, doctorId, selected.value) then multiset(messages)[m] else 0
  {
    if HasSelection(selected) then
      FilterIsSubsequence(Inbox(messages, doctorId), (m: Message) => Between(m, doctorId, selected.value));
      Filter(Inbox(messages, doctorId), (m: Message) => Between(m, doctorId, selected.value))
    else
      []
  }

  // ---- Patient side ----

  /** The milestones whose owner is the patient. */
  function PatientMilestones(milestones: seq<Milestone>, patientId: string): (r: seq<Milestone>)
    ensures forall m :: m in r <==> m in milestones && m.patientId == patientId
    ensures forall m :: multiset(r)[m] == if m.patientId == patientId then multiset(milestones)[m] else 0
    ensures SubsequenceOf(r, milestones)
  {
    FilterIsSubsequence(milestones, (m: Milestone) => m.patientId == patientId);
    Filter(milestones, (m: Milestone) => m.patientId == patientId)
  }

  /** The tests assigned to the patient. */
  function PatientTests(tests: seq<Test>, patientId: string): (r: seq<Test>)
    ensures forall t :: t in r <==> t in tests && t.patientId == patientId
    ensures forall t :: multiset(r)[t] == if t.patientId == patientId then multiset(tests)[t] else 0
    ensures SubsequenceOf(r, tests)
  {
    FilterIsSubsequence(tests, (t: Test) => t.patientId == patientId);
    Filter(tests, (t: Test) => t.patientId == patientId)
  }

  /** The care tips written for the patient. */
  function PatientTips(tips: seq<CareTip>, patientId: string): (r: seq<CareTip>)
    ensures forall t :: t in r <==> t in tips && t.patientId == patientId
    ensures forall t :: multiset(r)[t] == if t.patientId == patientId then multiset(tips)[t] else 0
    ensures SubsequenceOf(r, tips)
  {
    FilterIsSubsequence(tips, (t: CareTip) => t.patientId == patientId);
    Filter(tips, (t: CareTip) => t.patientId == patientId)
  }

  // ---- Relations between views ----

  /**
   * The conversation is the filter of the whole message collection by the
   * pair, so messages between other users never enter it.
   */
  lemma ConversationIsPairFilter(messages: seq<Message>, doctorId: string, patientId: string)
    requires patientId != ""
    ensures Conversation(messages, doctorId, Some(patientId))
         == Filter(messages, (m: Message) => Between(m, doctorId, patientId))
  {
    FilterOfFilter(messages, (m: Message) => Involves(m, doctorId),
                   (m: Message) => Between(m, doctorId, patientId),
                   (m: Message) => Between(m, doctorId, patientId));
  }

  /**
   * Appending a message extends the conversation by that message exactly when
   * it is between the doctor and the selected patient, and leaves it as it
   * was otherwise.
   */
  lemma ConversationAppend(messages: seq<Message>, m: Message, doctorId: string, selected: Option<string>)
    ensures Conversation(messages + [m], doctorId, selected)
         == Conversation(messages, doctorId, selected)
            + (if HasSelection(selected) && Between(m, doctorId, selected.value) then [m] else [])
  {
    if HasSelection(selected) {
      ConversationIsPairFilter(messages + [m], doctorId, selected.value);
      ConversationIsPairFilter(messages, doctorId, selected.value);
      FilterAppend(messages, [m], (m: Message) => Between(m, doctorId, selected.value));
    }
  }

  /**
   * Appending a message to the collection puts it at the end of the inbox of
   * each user it involves and leaves every other inbox as it was.
   */
  lemma InboxAppend(messages: seq<Message>, m: Message, userId: string)
    ensures Inbox(messages + [m], userId)
         == Inbox(messages, userId) + (if Involves(m, userId) then [m] else [])
  {
    FilterAppend(messages, [m], (m: Message) => Involves(m, userId));
  }

  /**
   * The doctor's view of the tests for one patient and the patient's view of
   * the tests from one doctor are the same sequence.
   */
  lemma DoctorAndPatientViewsAgree(tests: seq<Test>, doctorId: string, patientId: string)
    ensures Filter(DoctorTests(tests, doctorId), (t: Test) => t.patientId == patientId)
         == Filter(PatientTests(tests, patientId), (t: Test) => t.doctorId == doctorId)
  {
    var both := (t: Test) => t.doctorId == doctorId && t.patientId == patientId;
    FilterOfFilter(tests, (t: Test) => t.doctorId == doctorId, (t: Test) => t.patientId == patientId, both);
    FilterOfFilter(tests, (t: Test) => t.patientId == patientId, (t: Test) => t.doctorId == doctorId, both);
  }
}
