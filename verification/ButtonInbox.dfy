/** The reference button with an inbox: readings and expired deadlines wait in it, in the order in which
    they came, until they are served one by one. Time may pass, things may arrive and deadlines may fire
    at any moment. */
module ButtonInbox {
  import opened Options
  import opened PipelineModel
  import opened PipelineReference

  /** Besides readings and deadlines, the news of an accepted reading for the recogniser. */
  datatype Input = Read(pressed: bool) | Unlock | Hold | Lapse | News

  /** `due` has fired and is on its way into the inbox. */
  datatype Client = Client(button: Button, due: seq<Input>, inbox: seq<Input>)

  /** Something arrives; time passes; deadlines fire after `delta`; what has fired is posted; the front of
      the inbox is served. */
  datatype Step = Arrive(pressed: bool) | Pass(delta: int) | Expire(delta: int, due: seq<Input>) | Enqueue | ServeFront

  /** The deadlines that the button has set. */
  predicate WaitsFor(b: Button, x: Input) {
    match x
    case Unlock => b.lockedUntil.Some?
    case Hold => b.phase.Down?
    case Lapse => b.phase.Between?
    case _ => false
  }

  function Deadline(b: Button, x: Input): int
    requires WaitsFor(b, x)
  {
    match x
    case Unlock => b.lockedUntil.value
    case _ => b.phase.deadline
  }

  predicate Expired(b: Button, x: Input) {
    WaitsFor(b, x) && Deadline(b, x) <= b.now
  }

  /** Exactly the deadlines that have passed and have not fired, once each, the earlier first. */
  ghost predicate IsDue(b: Button, inbox: seq<Input>, due: seq<Input>) {
    && (forall x :: x in due <==> Expired(b, x) && x !in inbox)
    && (forall i, j :: 0 <= i < j < |due| ==>
          due[i] != due[j] && Expired(b, due[i]) && Expired(b, due[j])
          && Deadline(b, due[i]) <= Deadline(b, due[j]))
  }

  function Later(b: Button, d: int): Button {
    b.(now := b.now + d)
  }

  ghost predicate Possible(c: Client, step: Step) {
    match step
    case Arrive(_) => true
    case Pass(d) => d >= 0
    case Expire(d, due) => d >= 0 && c.due == [] && IsDue(Later(c.button, d), c.inbox, due)
    case Enqueue => c.due != []
    case ServeFront => c.inbox != []
  }

  /** A reading is ignored while locked out or when it is not news; an accepted one is committed at once,
      and the recogniser hears of it when its turn in the inbox comes. */
  function Serve(c: Client): Client
    requires c.inbox != []
  {
    var b, rest := c.button, c.inbox[1..];
    match c.inbox[0]
    case Read(p) =>
      if b.lockedUntil.Some? || p == b.pressed then c.(inbox := rest)
      else c.(button := b.(pressed := p, lockedUntil := Some(b.now + DEBOUNCE_WINDOW)), inbox := rest + [News])
    case Unlock => c.(button := b.(lockedUntil := None), inbox := rest)
    case Hold => c.(button := Recognise(b, LongPress), inbox := rest)
    case Lapse => c.(button := Recognise(b, Click), inbox := rest)
    case News => c.(button := Edge(b), inbox := rest)
  }

  ghost function Perform(c: Client, step: Step): Client
    requires Possible(c, step)
  {
    match step
    case Arrive(p) => c.(inbox := c.inbox + [Read(p)])
    case Pass(d) => c.(button := Later(c.button, d))
    case Expire(d, due) => Client(Later(c.button, d), due, c.inbox)
    case Enqueue => c.(due := c.due[1..], inbox := c.inbox + [c.due[0]])
    case ServeFront => Serve(c)
  }

  ghost predicate AllPossible(c: Client, steps: seq<Step>)
    decreases |steps|
  {
    steps == [] || (Possible(c, steps[0]) && AllPossible(Perform(c, steps[0]), steps[1..]))
  }

  ghost function PerformAll(c: Client, steps: seq<Step>): Client
    requires AllPossible(c, steps)
    decreases |steps|
  {
    if steps == [] then c else PerformAll(Perform(c, steps[0]), steps[1..])
  }

  lemma {:induction false} PerformBoth(c: Client, a: seq<Step>, b: seq<Step>)
    requires AllPossible(c, a) && AllPossible(PerformAll(c, a), b)
    ensures AllPossible(c, a + b) && PerformAll(c, a + b) == PerformAll(PerformAll(c, a), b)
    decreases |a|
  {
    if a == [] {
      assert a + b == b;
    } else {
      PerformBoth(Perform(c, a[0]), a[1..], b);
      assert (a + b)[1..] == a[1..] + b;
    }
  }

  lemma PerformOne(c: Client, step: Step)
    requires Possible(c, step)
    ensures AllPossible(c, [step]) && PerformAll(c, [step]) == Perform(c, step)
  {
    assert [step][1..] == [];
  }
}
