/**
 * The in-memory record store: the five collections the dashboards import
 * from seed data and mutate in place, plus the current session of the auth
 * provider. Every operation appends one record, flips one boolean or writes
 * the session; the views are the functions of module Projections and
 * Progress applied to these fields.
 */
module RecordStore {
  import opened Wrappers
  import opened Records
  import opened Ids
  import opened Text
  import opened Auth
  import opened Projections
  import opened Progress

  /** Why an operation did nothing. */
  datatype StoreError =
    | InvalidCredentials   // login: no user has both the email and the password
    | UserAlreadyExists    // signup: the email is taken
    | NoPatientSelected    // doctor-side creation without a selected patient
    | BlankMessage         // message content that trims to the empty string

  datatype Outcome = Done | Failed(error: StoreError)

  class Store {
    var users: seq<User>
    var milestones: seq<Milestone>
    var tests: seq<Test>
    var careTips: seq<CareTip>
    var messages: seq<Message>
    /** The logged-in user, or None. */
    var session: Option<User>

    /** A store seeded with the given collections and nobody logged in. */
    constructor (users: seq<User>, milestones: seq<Milestone>, tests: seq<Test>,
                 careTips: seq<CareTip>, messages: seq<Message>)
      ensures this.users == users && this.milestones == milestones && this.tests == tests
      ensures this.careTips == careTips && this.messages == messages
      ensures session == None
    {
      this.users := users;
      this.milestones := milestones;
      this.tests := tests;
      this.careTips := careTips;
      this.messages := messages;
      this.session := None;
    }

    /** `user?.id || ''`: the current user's id, or the empty string. */
    function SessionId(): (id: string)
      reads this
      ensures session.Some? ==> id == session.value.id
      ensures id != "" ==> session.Some? && session.value.id == id
    {
      if session.Some? then session.value.id else ""
    }

    /** `user?.assignedTo || ''` for a patient: the assigned doctor's id, or the empty string. */
    function PatientReceiver(): (receiver: string)
      reads this
      ensures session.Some? && session.value.assignedTo.AssignedTo? ==> receiver == session.value.assignedTo.id
      ensures receiver != "" ==> session.Some? && session.value.assignedTo == AssignedTo(receiver)
    {
      if session.Some? && session.value.assignedTo.AssignedTo? then session.value.assignedTo.id else ""
    }

    /** Logs in the first user with the given email and password. */
    method Login(email: string, password: string) returns (outcome: Outcome)
      modifies this`session
      ensures match FindUser(users, email, password)
        case Some(i) => outcome == Done && session == Some(users[i])
        case None => outcome == Failed(InvalidCredentials) && session == old(session)
    {
      var found := FindUser(users, email, password);
      if found.None? {
        return Failed(InvalidCredentials);
      }
      session := Some(users[found.value]);
      outcome := Done;
    }

    /** Registers a user under a fresh email and logs them in. */
    method Signup(form: SignupForm) returns (outcome: Outcome)
      modifies this`users, this`session
      ensures EmailTaken(old(users), form.email) ==>
        outcome == Failed(UserAlreadyExists) && users == old(users) && session == old(session)
      ensures !EmailTaken(old(users), form.email) ==>
        && outcome == Done
        && users == old(users) + [NewUser(form, |old(users)|)]
        && session == Some(NewUser(form, |old(users)|))
      ensures old(DistinctEmails(users)) ==> DistinctEmails(users)
      ensures old(UserIdsNumbered(users)) ==> UserIdsNumbered(users)
      ensures old(UserIdsNumbered(users)) && outcome == Done ==>
        forall i :: 0 <= i < |old(users)| ==> old(users)[i].id != session.value.id
    {
      if EmailTaken(users, form.email) {
        return Failed(UserAlreadyExists);
      }
      var user := NewUser(form, |users|);
      if DistinctEmails(users) {
        SignupKeepsEmailsDistinct(users, form);
      }
      if UserIdsNumbered(users) {
        SignupIdFresh(users, form);
      }
      users := users + [user];
      session := Some(user);
      outcome := Done;
    }

    /** Ends the session; doing it again changes nothing more. */
    method Logout()
      modifies this`session
      ensures session == None
    {
      session := None;
    }

    /** The doctor assigns a test to the selected patient. */
    method NewTest(selected: Option<string>, form: TestForm) returns (outcome: Outcome)
      modifies this`tests
      ensures !HasSelection(selected) ==> outcome == Failed(NoPatientSelected) && tests == old(tests)
      ensures HasSelection(selected) ==>
        && outcome == Done
        && tests == old(tests) + [Test(NextId("t", |old(tests)|), selected.value, SessionId(),
                                       form.title, form.description, form.dueDate, false, None,
                                       form.category)]
      ensures old(AllNumbered(TestIds(tests), "t")) ==> AllNumbered(TestIds(tests), "t")
      ensures old(AllNumbered(TestIds(tests), "t")) && outcome == Done ==> NextId("t", |old(tests)|) !in old(TestIds(tests))
    {
      if !HasSelection(selected) {
        return Failed(NoPatientSelected);
      }
      var test := Test(NextId("t", |tests|), selected.value, SessionId(),
                       form.title, form.description, form.dueDate, false, None, form.category);
      NextIdAppend(TestIds(tests), "t");
      assert TestIds(tests + [test]) == TestIds(tests) + [test.id];
      tests := tests + [test];
      outcome := Done;
    }

    /** The doctor writes a care tip for the selected patient; `now` is the creation time. */
    method NewTip(selected: Option<string>, form: TipForm, now: string) returns (outcome: Outcome)
      modifies this`careTips
      ensures !HasSelection(selected) ==> outcome == Failed(NoPatientSelected) && careTips == old(careTips)
      ensures HasSelection(selected) ==>
        && outcome == Done
        && careTips == old(careTips) + [CareTip(NextId("ct", |old(careTips)|), form.title, form.description,
                                                form.category, SessionId(), selected.value, now)]
      ensures old(AllNumbered(TipIds(careTips), "ct")) ==> AllNumbered(TipIds(careTips), "ct")
      ensures old(AllNumbered(TipIds(careTips), "ct")) && outcome == Done ==> NextId("ct", |old(careTips)|) !in old(TipIds(careTips))
    {
      if !HasSelection(selected) {
        return Failed(NoPatientSelected);
      }
      var tip := CareTip(NextId("ct", |careTips|), form.title, form.description, form.category,
                         SessionId(), selected.value, now);
      NextIdAppend(TipIds(careTips), "ct");
      assert TipIds(careTips + [tip]) == TipIds(careTips) + [tip.id];
      careTips := careTips + [tip];
      outcome := Done;
    }

    /**
     * The doctor sends `content` to the selected patient. The content is
     * stored untrimmed; the new message ends the conversation with that patient.
     */
    method SendDoctorMessage(selected: Option<string>, content: string, now: string) returns (outcome: Outcome)
      modifies this`messages
      ensures IsBlank(content) ==> outcome == Failed(BlankMessage) && messages == old(messages)
      ensures !IsBlank(content) && !HasSelection(selected) ==>
        outcome == Failed(NoPatientSelected) && messages == old(messages)
      ensures !IsBlank(content) && HasSelection(selected) ==>
        && outcome == Done
        && messages == old(messages) + [Message(NextId("msg", |old(messages)|), SessionId(),
                                                selected.value, content, now)]
      ensures old(AllNumbered(MessageIds(messages), "msg")) ==> AllNumbered(MessageIds(messages), "msg")
      ensures old(AllNumbered(MessageIds(messages), "msg")) && outcome == Done ==> NextId("msg", |old(messages)|) !in old(MessageIds(messages))
    {
      if Trim(content) == "" {
        return Failed(BlankMessage);
      }
      if !HasSelection(selected) {
        return Failed(NoPatientSelected);
      }
      var message := Message(NextId("msg", |messages|), SessionId(), selected.value, content, now);
      NextIdAppend(MessageIds(messages), "msg");
      assert MessageIds(messages + [message]) == MessageIds(messages) + [message.id];
      messages := messages + [message];
      outcome := Done;
    }

    /**
     * The patient sends `content` to their assigned doctor, or to the empty
     * id when unassigned. The new message ends the patient's inbox.
     */
    method SendPatientMessage(content: string, now: string) returns (outcome: Outcome)
      requires session.Some? ==> !session.value.assignedTo.AssignedList?
      modifies this`messages
      ensures IsBlank(content) ==> outcome == Failed(BlankMessage) && messages == old(messages)
      ensures !IsBlank(content) ==>
        && outcome == Done
        && messages == old(messages) + [Message(NextId("msg", |old(messages)|), SessionId(),
                                                PatientReceiver(), content, now)]
      ensures old(AllNumbered(MessageIds(messages), "msg")) ==> AllNumbered(MessageIds(messages), "msg")
      ensures old(AllNumbered(MessageIds(messages), "msg")) && outcome == Done ==> NextId("msg", |old(messages)|) !in old(MessageIds(messages))
    {
      if Trim(content) == "" {
        return Failed(BlankMessage);
      }
      var message := Message(NextId("msg", |messages|), SessionId(), PatientReceiver(), content, now);
      NextIdAppend(MessageIds(messages), "msg");
      assert MessageIds(messages + [message]) == MessageIds(messages) + [message.id];
      messages := messages + [message];
      outcome := Done;
    }

    /**
     * Negates `completed` on the first milestone with the given id, whoever
     * owns it; an unknown id changes nothing.
     */
    method ToggleMilestone(id: string)
      modifies this`milestones
      ensures milestones == ToggleFirst(old(milestones), id)
    {
      var found := MilestoneIndex(milestones, id);
      if found.Some? {
        var m := milestones[found.value];
        milestones := milestones[found.value := m.(completed := !m.completed)];
      }
    }
  }

  /**
   * A client of the store: signing up with an unused email and then logging
   * in with the same credentials logs in exactly the user just created.
   */
  method SignupThenLogin(store: Store, form: SignupForm) returns (signedUp: Outcome, loggedIn: Outcome)
    requires !EmailTaken(store.users, form.email)
    modifies store`users, store`session
    ensures signedUp == Done && loggedIn == Done
    ensures store.users == old(store.users) + [NewUser(form, |old(store.users)|)]
    ensures store.session == Some(NewUser(form, |old(store.users)|))
  {
    LoginAfterSignup(store.users, form);
    signedUp := store.Signup(form);
    loggedIn := store.Login(form.email, form.password);
  }
}
