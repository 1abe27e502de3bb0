/**
 * The record shapes of the care tracker (src/types.ts): users, milestones,
 * care tips, tests and messages. Records refer to users only through string
 * ids (`patientId`, `doctorId`, `senderId`, `receiverId`).
 */
module Records {
  import opened Wrappers

  /** A user's role takes exactly one of two values. */
  datatype Role = Doctor | Patient {
    /** The role as the string the source stores: 'doctor' or 'patient'. */
    function Name(): string
    {
      if Doctor? then "doctor" else "patient"
    }

    /** The first character of the role's name, the id prefix given at signup. */
    function Initial(): (c: char)
      ensures c == Name()[0]
      ensures c == 'd' <==> Doctor?
      ensures c == 'p' <==> Patient?
    {
      if Doctor? then 'd' else 'p'
    }
  }

  /**
   * `assignedTo` is optional and is either one id (a patient's doctor) or a
   * list of ids (a doctor's patients).
   */
  datatype Assignment = Unassigned | AssignedTo(id: string) | AssignedList(ids: seq<string>)

  datatype User = User(id: string, email: string, password: string, name: string,
                       role: Role, assignedTo: Assignment)

  /** A user without its id: what a signup supplies. */
  datatype SignupForm = SignupForm(email: string, password: string, name: string,
                                   role: Role, assignedTo: Assignment)

  datatype Milestone = Milestone(id: string, patientId: string, title: string,
                                 description: string, completed: bool, dueDate: string,
                                 category: string, points: int)

  datatype CareTip = CareTip(id: string, title: string, description: string,
                             category: string, doctorId: string, patientId: string,
                             createdAt: string)

  datatype Test = Test(id: string, patientId: string, doctorId: string, title: string,
                       description: string, dueDate: string, completed: bool,
                       results: Option<string>, category: string)

  datatype Message = Message(id: string, senderId: string, receiverId: string,
                             content: string, timestamp: string)

  /** The fields of the doctor's "new test" form. */
  datatype TestForm = TestForm(title: string, description: string, dueDate: string, category: string)

  /** The fields of the doctor's "new care tip" form. */
  datatype TipForm = TipForm(title: string, description: string, category: string)

  /** The ids of a collection, in collection order. */
  function IdsOf<T>(s: seq<T>, id: T -> string): (ids: seq<string>)
    ensures |ids| == |s| && forall i :: 0 <= i < |s| ==> ids[i] == id(s[i])
  {
    seq(|s|, i requires 0 <= i < |s| => id(s[i]))
  }

  function TestIds(ts: seq<Test>): seq<string>
  {
    IdsOf(ts, (t: Test) => t.id)
  }

  function TipIds(ts: seq<CareTip>): seq<string>
  {
    IdsOf(ts, (t: CareTip) => t.id)
  }

  function MessageIds(ms: seq<Message>): seq<string>
  {
    IdsOf(ms, (m: Message) => m.id)
  }
}
