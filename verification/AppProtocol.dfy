/**
 * The full-duplex request protocol between an app and its visor: one-byte request identifiers that are
 * reused, handlers finishing in any order, and one byte stream each way. Taking an identifier and writing
 * the frame are separate steps, so any number of Sends, and Close, may run in between.
 */
module AppProtocol {
  import opened Base

  const LAST_ID := 254

  /** The channel list: which waiting Send, numbered in the order of the calls, owns an identifier. */
  type Chans = map<Byte, nat>

  /** The lowest identifier from `i` up that nobody waits on. */
  function FirstFree(chans: Chans, i: nat): Option<Byte>
    requires i <= LAST_ID + 1
    decreases LAST_ID + 1 - i
  {
    if i > LAST_ID then None
    else if i !in chans then Some(i)
    else FirstFree(chans, i + 1)
  }

  lemma {:induction false} FirstFreeIsLowest(chans: Chans, i: nat)
    requires i <= LAST_ID + 1
    ensures match FirstFree(chans, i)
            case Some(id) => i <= id <= LAST_ID && id !in chans && forall x :: i <= x < id ==> x in chans
            case None => forall x :: i <= x <= LAST_ID ==> x in chans
    decreases LAST_ID + 1 - i
  {
    if i <= LAST_ID && i in chans {
      FirstFreeIsLowest(chans, i + 1);
    }
  }

  class ChanList {
    var chans: Chans

    constructor ()
      ensures chans == map[]
    {
      chans := map[];
    }

    /** No result stands for the panic when 255 requests are pending. */
    method Add(waiter: nat) returns (id: Option<Byte>)
      modifies this
      ensures id == FirstFree(old(chans), 0)
      ensures chans == if id.Some? then old(chans)[id.value := waiter] else old(chans)
    {
      var i := 0;
      while i < LAST_ID + 1
        invariant 0 <= i <= LAST_ID + 1 && chans == old(chans)
        invariant FirstFree(old(chans), 0) == FirstFree(old(chans), i)
      {
        if i !in chans {
          chans := chans[i := waiter];
          return Some(i);
        }
        i := i + 1;
      }
      return None;
    }

    method Pull(id: Byte) returns (waiter: Option<nat>)
      modifies this
      ensures waiter == if id in old(chans) then Some(old(chans)[id]) else None
      ensures chans == old(chans) - {id}
    {
      waiter := if id in chans then Some(chans[id]) else None;
      chans := chans - {id};
    }

    method CloseAll() returns (waiters: set<nat>)
      modifies this
      ensures waiters == old(chans).Values && chans == map[]
    {
      waiters := chans.Values;
      chans := map[];
    }
  }

  // Two ends and everything between them.

  datatype Answer = Answer(ok: bool, data: seq<Byte>)

  /** `uid` names the Send a frame goes back to. It is history: no step looks at it to decide anything. */
  datatype Call = Call(id: Byte, payload: seq<Byte>, uid: nat)

  datatype Reply = Reply(id: Byte, answer: Answer, uid: nat)

  datatype Frame = Request(call: Call) | Response(reply: Reply)

  /** What a Send's channel yielded; EOF when it was closed instead. */
  datatype Outcome = Answered(answer: Answer) | EOF

  /**
   * One end: its pending requests, those that have an identifier and are not written yet, the frames it wrote that
   * are not read yet, its running handlers, and the history of its Sends, of what they returned, and of what its
   * handlers computed for the other end's Sends.
   */
  datatype End = End(chans: Chans, drafts: seq<Call>, out: seq<Frame>, handlers: seq<Call>, sent: seq<seq<Byte>>,
                     got: map<nat, Outcome>, computed: map<nat, (seq<Byte>, Answer)>, closing: bool)

  datatype State = State(a: End, b: End) {
    function At(first: bool): End {
      if first then a else b
    }

    function Set(first: bool, x: End): State {
      if first then this.(a := x) else this.(b := x)
    }
  }

  /** `Add` and `Write` are the two halves of Send; `CloseAll` is the first half of Close. */
  datatype Step =
    | Add(first: bool, payload: seq<Byte>)
    | Write(first: bool, k: nat)
    | WriteFails(first: bool, k: nat)
    | TakeRequest(first: bool)
    | TakeResponse(first: bool)
    | Finish(first: bool, k: nat, answer: Answer)
    | FinishFails(first: bool, k: nat)
    | CloseAll(first: bool)

  predicate Enabled(s: State, e: Step) {
    match e
    case Add(first, _) => FirstFree(s.At(first).chans, 0).Some?
    case Write(first, k) => k < |s.At(first).drafts|
    case WriteFails(first, k) => k < |s.At(first).drafts|
    case TakeRequest(first) => s.At(!first).out != [] && s.At(!first).out[0].Request?
    case TakeResponse(first) => s.At(!first).out != [] && s.At(!first).out[0].Response?
    case Finish(first, k, _) => k < |s.At(first).handlers|
    case FinishFails(first, k) => k < |s.At(first).handlers|
    case CloseAll(_) => true
  }

  function Without<T>(s: seq<T>, k: nat): seq<T>
    requires k < |s|
  {
    s[..k] + s[k + 1..]
  }

  /** What each operation does to the end it runs on; the two Take steps also shorten the other end's stream. */
  function Apply(s: State, e: Step): State
    requires Enabled(s, e)
  {
    var x, y := s.At(e.first), s.At(!e.first);
    match e
    case Add(first, payload) =>
      var id := FirstFree(x.chans, 0).value;
      s.Set(first, x.(chans := x.chans[id := |x.sent|], drafts := x.drafts + [Call(id, payload, |x.sent|)],
                      sent := x.sent + [payload]))
    case Write(first, k) =>
      s.Set(first, x.(drafts := Without(x.drafts, k), out := x.out + [Request(x.drafts[k])]))
    // The identifier stays taken when the write fails.
    case WriteFails(first, k) => s.Set(first, x.(drafts := Without(x.drafts, k)))
    case TakeRequest(first) =>
      s.Set(first, x.(handlers := x.handlers + [y.out[0].call])).Set(!first, y.(out := y.out[1..]))
    // A response nobody waits for is dropped.
    case TakeResponse(first) =>
      var r := y.out[0].reply;
      var x' := if r.id in x.chans
                then x.(chans := x.chans - {r.id}, got := x.got[x.chans[r.id] := Answered(r.answer)]) else x;
      s.Set(first, x').Set(!first, y.(out := y.out[1..]))
    case Finish(first, k, answer) =>
      var h := x.handlers[k];
      s.Set(first, x.(handlers := Without(x.handlers, k), out := x.out + [Response(Reply(h.id, answer, h.uid))],
                      computed := x.computed[h.uid := (h.payload, answer)]))
    case FinishFails(first, k) => s.Set(first, x.(handlers := Without(x.handlers, k)))
    case CloseAll(first) =>
      s.Set(first, x.(chans := map[], got := x.got + (map u | u in x.chans.Values :: EOF), closing := true))
  }

  const IDLE := End(map[], [], [], [], [], map[], map[], false)
  const INITIAL := State(IDLE, IDLE)

  ghost predicate Run(states: seq<State>, steps: seq<Step>) {
    && |states| == |steps| + 1
    && forall i :: 0 <= i < |steps| ==> Enabled(states[i], steps[i]) && states[i + 1] == Apply(states[i], steps[i])
  }

  // One direction: the requests of one end and the answers of the other, wherever they are.

  function Calls(out: seq<Frame>): seq<Call> {
    if out == [] then [] else (if out[0].Request? then [out[0].call] else []) + Calls(out[1..])
  }

  function Replies(out: seq<Frame>): seq<Reply> {
    if out == [] then [] else (if out[0].Response? then [out[0].reply] else []) + Replies(out[1..])
  }

  /** `early` are the requests not answered yet: drafted, written, or in a handler. `late` are the responses written. */
  datatype Exchange = Exchange(chans: Chans, sent: seq<seq<Byte>>, got: map<nat, Outcome>, closing: bool,
                               computed: map<nat, (seq<Byte>, Answer)>, early: multiset<Call>, late: multiset<Reply>) {

    /** Nothing on the way carries this identifier. */
    ghost predicate Clear(id: Byte) {
      (forall c :: c in early ==> c.id != id) && (forall r :: r in late ==> r.id != id)
    }

    ghost predicate Legal(m: Move) {
      match m
      case Stay => true
      case Take(id, _) => id !in chans && id <= LAST_ID
      case Drop(c) => c in early
      case Respond(c, _) => c in early
      case Receive(r) => r in late
      case Close => true
    }

    function Do(m: Move): Exchange {
      match m
      case Stay => this
      case Take(id, payload) =>
        this.(chans := chans[id := |sent|], sent := sent + [payload],
              early := early + multiset{Call(id, payload, |sent|)})
      case Drop(c) => this.(early := early - multiset{c})
      case Respond(c, answer) =>
        this.(early := early - multiset{c}, late := late + multiset{Reply(c.id, answer, c.uid)},
              computed := computed[c.uid := (c.payload, answer)])
      case Receive(r) =>
        if r.id in chans
        then this.(late := late - multiset{r}, chans := chans - {r.id}, got := got[chans[r.id] := Answered(r.answer)])
        else this.(late := late - multiset{r})
      case Close => this.(chans := map[], got := got + (map u | u in chans.Values :: EOF), closing := true)
    }

    /** History is about Sends that have happened. */
    ghost predicate Known() {
      && (forall c :: c in early ==> c.uid < |sent|) && (forall r :: r in late ==> r.uid < |sent|)
      && (forall u :: u in computed ==> u < |sent|) && (forall u :: u in got ==> u < |sent|)
      && (forall id :: id in chans ==> id <= LAST_ID && chans[id] < |sent|)
    }

    /** Each request on the way is its Send's, the only one for that Send and under its identifier, and not answered. */
    ghost predicate EarlyFine()
      requires Known()
    {
      && (forall c :: c in early ==>
            early[c] == 1 && c.payload == sent[c.uid] && c.uid !in computed && (c.id in chans ==> chans[c.id] == c.uid))
      && (forall c, d :: c in early && d in early && (c.uid == d.uid || c.id == d.id) ==> c == d)
    }

    /** Each response on the way was computed from its Send's payload, and is the only thing under its identifier. */
    ghost predicate LateFine()
      requires Known()
    {
      && (forall r :: r in late ==>
            && late[r] == 1 && r.uid in computed && computed[r.uid] == (sent[r.uid], r.answer)
            && (r.id in chans ==> chans[r.id] == r.uid))
      && (forall r, q :: r in late && q in late && (r.uid == q.uid || r.id == q.id) ==> r == q)
      && (forall c, r :: c in early && r in late ==> c.id != r.id)
    }

    ghost predicate Waiting() {
      && (forall id :: id in chans ==> chans[id] !in got)
      && (forall id, id' :: id in chans && id' in chans && chans[id] == chans[id'] ==> id == id')
    }

    /** Every answer a Send got was computed by the other end from that Send's own payload. */
    ghost predicate Correlated() {
      forall u :: u in got && got[u].Answered? ==>
        u < |sent| && u in computed && computed[u] == (sent[u], got[u].answer)
    }

    /** While the end is open, whatever is on the way has a Send that waits for it. */
    ghost predicate Held() {
      !closing ==> (forall c :: c in early ==> c.id in chans) && (forall r :: r in late ==> r.id in chans)
    }

    ghost predicate Good() {
      Known() && EarlyFine() && LateFine() && Waiting() && Correlated() && Held()
    }
  }

  /** What a step means for one direction. */
  datatype Move =
    | Stay
    | Take(id: Byte, payload: seq<Byte>)
    | Drop(call: Call)
    | Respond(call: Call, answer: Answer)
    | Receive(reply: Reply)
    | Close

  function View(x: End, y: End): Exchange {
    Exchange(x.chans, x.sent, x.got, x.closing, y.computed,
             multiset(x.drafts) + multiset(Calls(x.out)) + multiset(y.handlers), multiset(Replies(y.out)))
  }

  /** The direction whose requests are those of end `first`. */
  function ViewOf(s: State, first: bool): Exchange {
    View(s.At(first), s.At(!first))
  }

  function MoveOf(s: State, e: Step, first: bool): Move
    requires Enabled(s, e)
  {
    var x := s.At(e.first);
    match e
    case Add(f, payload) => if f == first then Take(FirstFree(x.chans, 0).value, payload) else Stay
    case Write(_, _) => Stay
    case WriteFails(f, k) => if f == first then Drop(x.drafts[k]) else Stay
    case TakeRequest(_) => Stay
    case TakeResponse(f) => if f == first then Receive(s.At(!f).out[0].reply) else Stay
    case Finish(f, k, answer) => if f == first then Stay else Respond(x.handlers[k], answer)
    case FinishFails(f, k) => if f == first then Stay else Drop(x.handlers[k])
    case CloseAll(f) => if f == first then Close else Stay
  }

  lemma {:induction false} FramesAppend(out: seq<Frame>, f: Frame)
    ensures Calls(out + [f]) == Calls(out) + (if f.Request? then [f.call] else [])
    ensures Replies(out + [f]) == Replies(out) + (if f.Response? then [f.reply] else [])
  {
    if out == [] {
      assert [f][1..] == [];
    } else {
      assert (out + [f])[1..] == out[1..] + [f];
      FramesAppend(out[1..], f);
    }
  }

  lemma WithoutOne<T>(s: seq<T>, k: nat)
    requires k < |s|
    ensures multiset(s) == multiset(Without(s, k)) + multiset{s[k]}
  {
    assert s == s[..k] + [s[k]] + s[k + 1..];
  }

  lemma HeadCall(out: seq<Frame>)
    requires out != []
    ensures if out[0].Request? then
              && multiset(Calls(out)) == multiset(Calls(out[1..])) + multiset{out[0].call}
              && Replies(out) == Replies(out[1..])
            else
              && multiset(Replies(out)) == multiset(Replies(out[1..])) + multiset{out[0].reply}
              && Calls(out) == Calls(out[1..])
  {
  }

  /** A step that leaves an end's requests and the other's answers where they count is no move of that direction. */
  lemma SameView(x: End, y: End, x': End, y': End)
    requires x'.chans == x.chans && x'.sent == x.sent && x'.got == x.got && x'.closing == x.closing
    requires y'.computed == y.computed && multiset(Replies(y'.out)) == multiset(Replies(y.out))
    requires multiset(x'.drafts) + multiset(Calls(x'.out)) + multiset(y'.handlers)
          == multiset(x.drafts) + multiset(Calls(x.out)) + multiset(y.handlers)
    ensures View(x', y') == View(x, y)
  {
  }

  lemma OneLess<T>(m: multiset<T>, rest: multiset<T>, x: T)
    requires m == rest + multiset{x}
    ensures x in m && m - multiset{x} == rest
  {
  }

  /** The fields of a view, one by one. */
  lemma SameExchange(v: Exchange, w: Exchange)
    requires v.chans == w.chans && v.sent == w.sent && v.got == w.got && v.closing == w.closing
    requires v.computed == w.computed && v.early == w.early && v.late == w.late
    ensures v == w
  {
  }

  lemma AddMoves(s: State, e: Step, first: bool)
    requires Enabled(s, e) && e.Add?
    ensures ViewOf(Apply(s, e), first) == ViewOf(s, first).Do(MoveOf(s, e, first))
    ensures ViewOf(s, first).Legal(MoveOf(s, e, first))
  {
    hide Calls, Replies, FirstFree;
    var x := s.At(e.first);
    FirstFreeIsLowest(x.chans, 0);
    if e.first == first {
      var c := Call(FirstFree(x.chans, 0).value, e.payload, |x.sent|);
      MoreDrafts(x, s.At(!first), c, Apply(s, e).At(first));
    }
  }

  lemma MoreDrafts(x: End, y: End, c: Call, x': End)
    requires x'.drafts == x.drafts + [c] && x'.out == x.out
    ensures View(x', y).early == View(x, y).early + multiset{c}
  {
    hide Calls, Replies;
    assert multiset(x.drafts + [c]) == multiset(x.drafts) + multiset{c};
    var d, o, h := multiset(x.drafts), multiset(Calls(x.out)), multiset(y.handlers);
    assert d + multiset{c} + o + h == d + o + h + multiset{c};
  }

  lemma WriteMoves(s: State, e: Step, first: bool)
    requires Enabled(s, e) && e.Write?
    ensures ViewOf(Apply(s, e), first) == ViewOf(s, first)
  {
    hide Calls, Replies, FirstFree, Without;
    var x := s.At(e.first);
    WithoutOne(x.drafts, e.k);
    FramesAppend(x.out, Request(x.drafts[e.k]));
    assert multiset(Calls(x.out) + [x.drafts[e.k]]) == multiset(Calls(x.out)) + multiset{x.drafts[e.k]};
    SameView(s.At(first), s.At(!first), Apply(s, e).At(first), Apply(s, e).At(!first));
  }

  lemma WriteFailsMoves(s: State, e: Step, first: bool)
    requires Enabled(s, e) && e.WriteFails?
    ensures ViewOf(Apply(s, e), first) == ViewOf(s, first).Do(MoveOf(s, e, first))
    ensures ViewOf(s, first).Legal(MoveOf(s, e, first))
  {
    hide Calls, Replies, FirstFree, Without;
    if e.first == first {
      FewerDrafts(s.At(first), s.At(!first), e.k, Apply(s, e).At(first));
    }
  }

  lemma FewerDrafts(x: End, y: End, k: nat, x': End)
    requires k < |x.drafts| && x'.drafts == Without(x.drafts, k) && x'.out == x.out
    ensures x.drafts[k] in View(x, y).early && View(x', y).early == View(x, y).early - multiset{x.drafts[k]}
  {
    hide Calls, Replies, Without;
    WithoutOne(x.drafts, k);
    var c, d, o, h := x.drafts[k], multiset(x'.drafts), multiset(Calls(x.out)), multiset(y.handlers);
    assert d + multiset{c} + o + h == (d + o + h) + multiset{c};
    OneLess(View(x, y).early, d + o + h, c);
  }

  lemma FewerHandlers(x: End, y: End, k: nat, y': End)
    requires k < |y.handlers| && y'.handlers == Without(y.handlers, k)
    ensures y.handlers[k] in View(x, y).early && View(x, y').early == View(x, y).early - multiset{y.handlers[k]}
  {
    hide Calls, Replies, Without;
    WithoutOne(y.handlers, k);
    var c, d, o, h := y.handlers[k], multiset(x.drafts), multiset(Calls(x.out)), multiset(y'.handlers);
    assert d + o + (h + multiset{c}) == (d + o + h) + multiset{c};
    OneLess(View(x, y).early, d + o + h, c);
  }

  lemma TakeRequestMoves(s: State, e: Step, first: bool)
    requires Enabled(s, e) && e.TakeRequest?
    ensures ViewOf(Apply(s, e), first) == ViewOf(s, first)
  {
    hide FirstFree;
    var x, y := s.At(e.first), s.At(!e.first);
    HeadCall(y.out);
    hide Calls, Replies;
    var c := y.out[0].call;
    assert multiset(x.handlers + [c]) == multiset(x.handlers) + multiset{c};
    SameView(s.At(first), s.At(!first), Apply(s, e).At(first), Apply(s, e).At(!first));
  }

  lemma TakeResponseMoves(s: State, e: Step, first: bool)
    requires Enabled(s, e) && e.TakeResponse?
    ensures ViewOf(Apply(s, e), first) == ViewOf(s, first).Do(MoveOf(s, e, first))
    ensures ViewOf(s, first).Legal(MoveOf(s, e, first))
  {
    var x, y, x', y' := s.At(e.first), s.At(!e.first), Apply(s, e).At(e.first), Apply(s, e).At(!e.first);
    var r := y.out[0].reply;
    assert y' == y.(out := y.out[1..]) && x'.drafts == x.drafts && x'.out == x.out && x'.handlers == x.handlers;
    assert x' == if r.id in x.chans
                 then x.(chans := x.chans - {r.id}, got := x.got[x.chans[r.id] := Answered(r.answer)]) else x;
    HeadCall(y.out);
    hide FirstFree, Calls, Replies, Apply, Enabled;
    OneLess(multiset(Replies(y.out)), multiset(Replies(y'.out)), r);
    if e.first == first {
      LateLess(x, y, x', y', r);
    } else {
      SameView(y, x, y', x');
    }
  }

  lemma LateLess(x: End, y: End, x': End, y': End, r: Reply)
    requires r in multiset(Replies(y.out)) && multiset(Replies(y'.out)) == multiset(Replies(y.out)) - multiset{r}
    requires y' == y.(out := y'.out)
    requires x' == if r.id in x.chans
                   then x.(chans := x.chans - {r.id}, got := x.got[x.chans[r.id] := Answered(r.answer)]) else x
    ensures View(x', y') == View(x, y).Do(Receive(r)) && View(x, y).Legal(Receive(r))
  {
    hide Calls, Replies;
    var early := multiset(x.drafts) + multiset(Calls(x.out)) + multiset(y.handlers);
    var late, late' := multiset(Replies(y.out)), multiset(Replies(y'.out));
    assert View(x, y) == Exchange(x.chans, x.sent, x.got, x.closing, y.computed, early, late);
    assert View(x', y') == Exchange(x'.chans, x'.sent, x'.got, x'.closing, y.computed, early, late');
  }

  lemma FinishMoves(s: State, e: Step, first: bool)
    requires Enabled(s, e) && e.Finish?
    ensures ViewOf(Apply(s, e), first) == ViewOf(s, first).Do(MoveOf(s, e, first))
    ensures ViewOf(s, first).Legal(MoveOf(s, e, first))
  {
    hide Calls, Replies, FirstFree, Without;
    var x := s.At(e.first);
    var h := x.handlers[e.k];
    var r := Reply(h.id, e.answer, h.uid);
    FramesAppend(x.out, Response(r));
    if e.first == first {
      SameView(s.At(first), s.At(!first), Apply(s, e).At(first), Apply(s, e).At(!first));
    } else {
      assert multiset(Replies(x.out) + [r]) == multiset(Replies(x.out)) + multiset{r};
      FewerHandlers(s.At(first), x, e.k, Apply(s, e).At(e.first));
      LateMore(s.At(first), x, Apply(s, e).At(e.first), h, e.answer);
    }
  }

  lemma LateMore(x: End, y: End, y': End, h: Call, answer: Answer)
    requires h in View(x, y).early && View(x, y').early == View(x, y).early - multiset{h}
    requires multiset(Replies(y'.out)) == multiset(Replies(y.out)) + multiset{Reply(h.id, answer, h.uid)}
    requires y'.computed == y.computed[h.uid := (h.payload, answer)]
    ensures View(x, y') == View(x, y).Do(Respond(h, answer)) && View(x, y).Legal(Respond(h, answer))
  {
    hide Calls, Replies;
    SameExchange(View(x, y'), View(x, y).Do(Respond(h, answer)));
  }

  lemma FinishFailsMoves(s: State, e: Step, first: bool)
    requires Enabled(s, e) && e.FinishFails?
    ensures ViewOf(Apply(s, e), first) == ViewOf(s, first).Do(MoveOf(s, e, first))
    ensures ViewOf(s, first).Legal(MoveOf(s, e, first))
  {
    hide Calls, Replies, FirstFree, Without;
    var x := s.At(e.first);
    if e.first == first {
      SameView(x, s.At(!first), Apply(s, e).At(first), Apply(s, e).At(!first));
    } else {
      FewerHandlers(s.At(first), x, e.k, Apply(s, e).At(e.first));
    }
  }

  /** Every step is one move, or none, in each direction. */
  lemma StepMoves(s: State, e: Step, first: bool)
    requires Enabled(s, e)
    ensures ViewOf(Apply(s, e), first) == ViewOf(s, first).Do(MoveOf(s, e, first))
    ensures ViewOf(s, first).Legal(MoveOf(s, e, first))
  {
    if e.CloseAll? {
      hide Calls, Replies, FirstFree;
    } else {
      hide ViewOf, Apply, Enabled;
      match e {
        case Add(_, _) => AddMoves(s, e, first);
        case Write(_, _) => WriteMoves(s, e, first);
        case WriteFails(_, _) => WriteFailsMoves(s, e, first);
        case TakeRequest(_) => TakeRequestMoves(s, e, first);
        case TakeResponse(_) => TakeResponseMoves(s, e, first);
        case Finish(_, _, _) => FinishMoves(s, e, first);
        case FinishFails(_, _) => FinishFailsMoves(s, e, first);
        case _ =>
      }
    }
  }

  // Every move keeps the invariants.

  ghost predicate Added<T(!new)>(m: multiset<T>, more: multiset<T>, x: T) {
    && (forall y :: y in more <==> y in m || y == x)
    && (forall y :: y in m && y != x ==> more[y] == m[y])
    && (x !in m ==> more[x] == 1)
  }

  ghost predicate Removed<T(!new)>(m: multiset<T>, less: multiset<T>, x: T) {
    && (forall y :: y in less ==> y in m && less[y] <= m[y] && (y == x ==> m[x] > 1))
    && (forall y :: y in m && y != x ==> y in less)
  }

  lemma AddOne<T(!new)>(m: multiset<T>, x: T)
    ensures Added(m, m + multiset{x}, x)
  {
  }

  lemma RemoveOne<T(!new)>(m: multiset<T>, x: T)
    ensures Removed(m, m - multiset{x}, x)
  {
  }

  /** What a move does, with the multisets described by their members. */
  ghost predicate Becomes(v: Exchange, m: Move, w: Exchange) {
    match m
    case Stay => w == v
    case Take(id, payload) =>
      && w == v.(chans := v.chans[id := |v.sent|], sent := v.sent + [payload], early := w.early)
      && Added(v.early, w.early, Call(id, payload, |v.sent|))
    case Drop(c) => w == v.(early := w.early) && Removed(v.early, w.early, c)
    case Respond(c, answer) =>
      && w == v.(early := w.early, late := w.late, computed := v.computed[c.uid := (c.payload, answer)])
      && Removed(v.early, w.early, c) && Added(v.late, w.late, Reply(c.id, answer, c.uid))
    case Receive(r) =>
      && Removed(v.late, w.late, r)
      && if r.id in v.chans
         then w == v.(late := w.late, chans := v.chans - {r.id}, got := v.got[v.chans[r.id] := Answered(r.answer)])
         else w == v.(late := w.late)
    case Close => w == v.(chans := map[], got := v.got + (map u | u in v.chans.Values :: EOF), closing := true)
  }

  lemma DoBecomes(v: Exchange, m: Move)
    ensures Becomes(v, m, v.Do(m))
  {
    hide Added, Removed;
    match m {
      case Take(id, payload) => AddOne(v.early, Call(id, payload, |v.sent|));
      case Drop(c) => RemoveOne(v.early, c);
      case Respond(c, answer) =>
        RemoveOne(v.early, c);
        AddOne(v.late, Reply(c.id, answer, c.uid));
      case Receive(r) => RemoveOne(v.late, r);
      case _ =>
    }
  }

  lemma KeepsKnown(v: Exchange, m: Move, w: Exchange)
    requires v.Known() && v.Legal(m) && Becomes(v, m, w)
    ensures w.Known()
  {
  }

  lemma TakeKeepsEarly(v: Exchange, m: Move, w: Exchange)
    requires v.Known() && v.EarlyFine() && v.Legal(m) && Becomes(v, m, w) && w.Known() && m.Take? && v.Clear(m.id)
    ensures w.EarlyFine()
  {
  }

  lemma KeepsEarly(v: Exchange, m: Move, w: Exchange)
    requires v.Known() && v.EarlyFine() && v.Legal(m) && Becomes(v, m, w) && w.Known() && (m.Take? ==> v.Clear(m.id))
    ensures w.EarlyFine()
  {
    if m.Take? {
      TakeKeepsEarly(v, m, w);
    } else {
      match m { case Respond(_, _) => case Receive(_) => case _ => }
    }
  }

  lemma RespondKeepsLate(v: Exchange, m: Move, w: Exchange)
    requires v.Known() && v.EarlyFine() && v.LateFine() && v.Legal(m) && Becomes(v, m, w) && w.Known() && m.Respond?
    ensures w.LateFine()
  {
  }

  lemma TakeKeepsLate(v: Exchange, m: Move, w: Exchange)
    requires v.Known() && v.LateFine() && v.Legal(m) && Becomes(v, m, w) && w.Known() && m.Take? && v.Clear(m.id)
    ensures w.LateFine()
  {
  }

  lemma OtherKeepsLate(v: Exchange, m: Move, w: Exchange)
    requires v.Known() && v.LateFine() && v.Legal(m) && Becomes(v, m, w) && w.Known() && !m.Take? && !m.Respond?
    ensures w.LateFine()
  {
  }

  lemma KeepsLate(v: Exchange, m: Move, w: Exchange)
    requires v.Known() && v.EarlyFine() && v.LateFine() && v.Legal(m) && Becomes(v, m, w) && w.Known()
    requires m.Take? ==> v.Clear(m.id)
    ensures w.LateFine()
  {
    if m.Respond? {
      RespondKeepsLate(v, m, w);
    } else if m.Take? {
      TakeKeepsLate(v, m, w);
    } else {
      OtherKeepsLate(v, m, w);
    }
  }

  lemma KeepsWaiting(v: Exchange, m: Move, w: Exchange)
    requires v.Known() && v.Waiting() && v.Legal(m) && Becomes(v, m, w)
    ensures w.Waiting()
  {
    hide Added, Removed;
  }

  lemma RespondKeepsCorrelated(v: Exchange, m: Move, w: Exchange)
    requires v.Known() && v.EarlyFine() && v.Correlated() && v.Legal(m) && Becomes(v, m, w) && m.Respond?
    ensures w.Correlated()
  {
    hide Added, Removed;
  }

  lemma ReceiveKeepsCorrelated(v: Exchange, m: Move, w: Exchange)
    requires v.Known() && v.LateFine() && v.Correlated() && v.Legal(m) && Becomes(v, m, w) && m.Receive?
    ensures w.Correlated()
  {
    hide Added, Removed;
  }

  lemma KeepsCorrelated(v: Exchange, m: Move, w: Exchange)
    requires v.Known() && v.EarlyFine() && v.LateFine() && v.Correlated() && v.Legal(m) && Becomes(v, m, w)
    ensures w.Correlated()
  {
    if m.Respond? {
      RespondKeepsCorrelated(v, m, w);
    } else if m.Receive? {
      ReceiveKeepsCorrelated(v, m, w);
    } else {
      hide Added, Removed, Exchange.EarlyFine, Exchange.LateFine;
    }
  }

  lemma ReceiveKeepsHeld(v: Exchange, m: Move, w: Exchange)
    requires v.Known() && v.LateFine() && v.Held() && v.Legal(m) && Becomes(v, m, w) && m.Receive?
    ensures w.Held()
  {
  }

  lemma KeepsHeld(v: Exchange, m: Move, w: Exchange)
    requires v.Known() && v.LateFine() && v.Held() && v.Legal(m) && Becomes(v, m, w)
    ensures w.Held()
  {
    if m.Receive? {
      ReceiveKeepsHeld(v, m, w);
    } else {
      hide Exchange.LateFine, Exchange.Known;
      match m { case Take(_, _) => case Respond(_, _) => case _ => }
    }
  }

  lemma DoGood(v: Exchange, m: Move)
    requires v.Good() && v.Legal(m) && (m.Take? ==> v.Clear(m.id))
    ensures v.Do(m).Good()
  {
    DoBecomes(v, m);
    var w := v.Do(m);
    KeepsKnown(v, m, w);
    KeepsEarly(v, m, w);
    KeepsLate(v, m, w);
    KeepsWaiting(v, m, w);
    KeepsCorrelated(v, m, w);
    KeepsHeld(v, m, w);
    hide Exchange.Known, Exchange.EarlyFine, Exchange.LateFine, Exchange.Waiting, Exchange.Correlated, Exchange.Held;
  }

  // When a Send may take an identifier.

  /** No draft, written request, running handler or written response of these two ends carries the identifier. */
  predicate NothingOnWay(x: End, y: End, id: Byte) {
    && (forall c :: c in x.drafts ==> c.id != id)
    && (forall f :: f in x.out && f.Request? ==> f.call.id != id)
    && (forall h :: h in y.handlers ==> h.id != id)
    && (forall f :: f in y.out && f.Response? ==> f.reply.id != id)
  }

  lemma {:induction false} FrameMembers(out: seq<Frame>)
    ensures forall c :: c in Calls(out) <==> Request(c) in out
    ensures forall r :: r in Replies(out) <==> Response(r) in out
  {
    if out != [] {
      FrameMembers(out[1..]);
      assert forall f :: f in out <==> f == out[0] || f in out[1..];
    }
  }

  lemma ClearIff(x: End, y: End, id: Byte)
    ensures NothingOnWay(x, y, id) <==> View(x, y).Clear(id)
  {
    FrameMembers(x.out);
    FrameMembers(y.out);
    var v := View(x, y);
    hide Calls, Replies;
    assert forall c :: c in v.early <==> c in x.drafts || Request(c) in x.out || c in y.handlers;
    assert forall r :: r in v.late <==> Response(r) in y.out;
    if v.Clear(id) {
      forall f | f in x.out && f.Request?
        ensures f.call.id != id
      {
        assert f == Request(f.call);
      }
      forall f | f in y.out && f.Response?
        ensures f.reply.id != id
      {
        assert f == Response(f.reply);
      }
    }
  }

  /** The Send, if the step begins one, takes an identifier under which nothing is on the way. */
  predicate Safe(s: State, e: Step) {
    e.Add? && FirstFree(s.At(e.first).chans, 0).Some? ==>
      NothingOnWay(s.At(e.first), s.At(!e.first), FirstFree(s.At(e.first).chans, 0).value)
  }

  ghost predicate SafeUpTo(states: seq<State>, steps: seq<Step>, n: nat) {
    forall k :: 0 <= k < n && k < |steps| && k < |states| ==> Safe(states[k], steps[k])
  }

  lemma InitialGood(first: bool)
    ensures ViewOf(INITIAL, first).Good()
  {
  }

  lemma StepGood(s: State, e: Step, first: bool)
    requires Enabled(s, e) && Safe(s, e) && ViewOf(s, first).Good()
    ensures ViewOf(Apply(s, e), first).Good()
  {
    StepMoves(s, e, first);
    if e.Add? && e.first == first {
      ClearIff(s.At(first), s.At(!first), FirstFree(s.At(first).chans, 0).value);
    }
    hide Apply, View, Exchange.Good, Exchange.Clear, Exchange.Do, NothingOnWay, FirstFree;
    DoGood(ViewOf(s, first), MoveOf(s, e, first));
  }

  lemma {:induction false} RunGood(states: seq<State>, steps: seq<Step>, i: nat, first: bool)
    requires Run(states, steps) && states[0] == INITIAL && i < |states| && SafeUpTo(states, steps, i)
    ensures ViewOf(states[i], first).Good()
  {
    hide Enabled, Apply, Safe, ViewOf, Exchange.Good;
    if i == 0 {
      InitialGood(first);
    } else {
      RunGood(states, steps, i - 1, first);
      assert Enabled(states[i - 1], steps[i - 1]) && Safe(states[i - 1], steps[i - 1]);
      StepGood(states[i - 1], steps[i - 1], first);
    }
  }

  /** What holds in every run, safe or not. */
  lemma {:induction false} RunKnown(states: seq<State>, steps: seq<Step>, i: nat, first: bool)
    requires Run(states, steps) && states[0] == INITIAL && i < |states|
    ensures ViewOf(states[i], first).Known()
  {
    if i == 0 {
      InitialGood(first);
    } else {
      hide Enabled, Apply, ViewOf, Exchange.Known;
      RunKnown(states, steps, i - 1, first);
      assert Enabled(states[i - 1], steps[i - 1]);
      StepMoves(states[i - 1], steps[i - 1], first);
      DoBecomes(ViewOf(states[i - 1], first), MoveOf(states[i - 1], steps[i - 1], first));
      KeepsKnown(ViewOf(states[i - 1], first), MoveOf(states[i - 1], steps[i - 1], first), ViewOf(states[i], first));
    }
  }

  // What safe runs promise.

  /**
   * Correlation: in every run whose Sends take identifiers under which nothing is on the way, every answer a Send
   * returns was computed by the other end's handler from the payload of that very Send, however identifiers are
   * reused, in whatever order handlers finish, and whenever the ends begin to close.
   */
  lemma SendGetsItsOwnAnswer(states: seq<State>, steps: seq<Step>, i: nat, first: bool, uid: nat)
    requires Run(states, steps) && states[0] == INITIAL && i < |states| && SafeUpTo(states, steps, i)
    requires uid in states[i].At(first).got && states[i].At(first).got[uid].Answered?
    ensures var x, y := states[i].At(first), states[i].At(!first);
            uid < |x.sent| && uid in y.computed && y.computed[uid] == (x.sent[uid], x.got[uid].answer)
  {
    RunGood(states, steps, i, first);
  }

  function CountCalls(s: seq<Call>, id: Byte): nat {
    if s == [] then 0 else (if s[0].id == id then 1 else 0) + CountCalls(s[1..], id)
  }

  function CountReplies(s: seq<Reply>, id: Byte): nat {
    if s == [] then 0 else (if s[0].id == id then 1 else 0) + CountReplies(s[1..], id)
  }

  /** How much is on the way under an identifier: drafts, written requests, running handlers, written responses. */
  function OnWay(x: End, y: End, id: Byte): nat {
    CountCalls(x.drafts, id) + CountCalls(Calls(x.out), id) + CountCalls(y.handlers, id)
    + CountReplies(Replies(y.out), id)
  }

  lemma {:induction false} CountCallsOf(s: seq<Call>, id: Byte, c: Call)
    requires c.id == id && forall d :: d in s && d.id == id ==> d == c
    ensures CountCalls(s, id) == multiset(s)[c]
  {
    if s != [] {
      assert s == [s[0]] + s[1..];
      CountCallsOf(s[1..], id, c);
    }
  }

  lemma {:induction false} CountRepliesOf(s: seq<Reply>, id: Byte, r: Reply)
    requires r.id == id && forall q :: q in s && q.id == id ==> q == r
    ensures CountReplies(s, id) == multiset(s)[r]
  {
    if s != [] {
      assert s == [s[0]] + s[1..];
      CountRepliesOf(s[1..], id, r);
    }
  }

  /** Where one thing is under the identifier, it is counted once; where nothing is, nothing is counted. */
  lemma CountsOnce(x: End, y: End, id: Byte)
    requires View(x, y).Good()
    ensures OnWay(x, y, id) <= 1 && (View(x, y).Clear(id) ==> OnWay(x, y, id) == 0)
  {
    var v := View(x, y);
    var c := if exists d :: d in v.early && d.id == id then var d :| d in v.early && d.id == id; d else Call(id, [], 0);
    var r := if exists q :: q in v.late && q.id == id then var q :| q in v.late && q.id == id; q
             else Reply(id, Answer(false, []), 0);
    EarlyMembers(x, y);
    hide Calls, Replies;
    CountCallsOf(x.drafts, id, c);
    CountCallsOf(Calls(x.out), id, c);
    CountCallsOf(y.handlers, id, c);
    CountRepliesOf(Replies(y.out), id, r);
    assert OnWay(x, y, id) == v.early[c] + v.late[r];
  }

  lemma EarlyMembers(x: End, y: End)
    ensures forall c :: c in x.drafts || c in Calls(x.out) || c in y.handlers ==> c in View(x, y).early
    ensures forall r :: r in Replies(y.out) ==> r in View(x, y).late
  {
    hide Calls, Replies;
  }

  /**
   * In a safe run at most one thing is on the way under an identifier, of drafts, requests, handlers and responses
   * together; and on an open end only while a Send waits on it.
   */
  lemma OneInFlight(states: seq<State>, steps: seq<Step>, i: nat, first: bool, id: Byte)
    requires Run(states, steps) && states[0] == INITIAL && i < |states| && SafeUpTo(states, steps, i)
    ensures var x, y := states[i].At(first), states[i].At(!first);
            && OnWay(x, y, id) <= 1
            && (!x.closing ==> OnWay(x, y, id) <= (if id in x.chans then 1 else 0))
  {
    RunGood(states, steps, i, first);
    var x, y := states[i].At(first), states[i].At(!first);
    CountsOnce(x, y, id);
    assert !x.closing && id !in x.chans ==> View(x, y).Clear(id);
    hide OnWay, Exchange.Good;
  }

  /** In every run an identifier is free exactly while fewer than 255 requests are pending. */
  lemma RoomBelow255(states: seq<State>, steps: seq<Step>, i: nat, first: bool)
    requires Run(states, steps) && states[0] == INITIAL && i < |states|
    ensures |states[i].At(first).chans| <= 255
    ensures FirstFree(states[i].At(first).chans, 0).Some? <==> |states[i].At(first).chans| < 255
  {
    RunKnown(states, steps, i, first);
    RoomInChans(states[i].At(first).chans);
  }

  lemma RoomInChans(chans: Chans)
    requires forall id :: id in chans ==> id <= LAST_ID
    ensures |chans| <= 255
    ensures FirstFree(chans, 0).Some? <==> |chans| < 255
  {
    FirstFreeIsLowest(chans, 0);
    hide FirstFree;
    var all := IdsBelow(LAST_ID + 1);
    SubsetSize(chans.Keys, all);
    assert |chans| == |chans.Keys|;
  }

  function IdsBelow(n: nat): (ids: set<Byte>)
    requires n <= 256
    ensures |ids| == n && forall id: Byte :: id in ids <==> id < n
  {
    if n == 0 then {} else IdsBelow(n - 1) + {n - 1}
  }

  lemma {:induction false} SubsetSize(s: set<Byte>, t: set<Byte>)
    requires s <= t
    ensures |s| <= |t| && (|s| == |t| <==> s == t)
  {
    if s != {} {
      var x :| x in s;
      SubsetSize(s - {x}, t - {x});
    }
  }

  /** No Send starts once Close has begun on its end. */
  predicate NotAfterClose(s: State, e: Step) {
    e.Add? ==> !s.At(e.first).closing
  }

  /** On an open end every Send is safe: whatever is on the way has a Send that waits on its identifier. */
  lemma {:induction false} OpenSendsAreSafe(states: seq<State>, steps: seq<Step>, n: nat)
    requires Run(states, steps) && states[0] == INITIAL && n <= |steps|
    requires forall k :: 0 <= k < n ==> NotAfterClose(states[k], steps[k])
    ensures SafeUpTo(states, steps, n)
  {
    if n > 0 {
      OpenSendsAreSafe(states, steps, n - 1);
      var s, e := states[n - 1], steps[n - 1];
      assert NotAfterClose(s, e);
      if e.Add? {
        RunGood(states, steps, n - 1, e.first);
        OpenIsClear(s, e.first);
      }
    }
  }

  lemma OpenIsClear(s: State, first: bool)
    requires ViewOf(s, first).Good() && !s.At(first).closing && FirstFree(s.At(first).chans, 0).Some?
    ensures NothingOnWay(s.At(first), s.At(!first), FirstFree(s.At(first).chans, 0).value)
  {
    FirstFreeIsLowest(s.At(first).chans, 0);
    ClearIff(s.At(first), s.At(!first), FirstFree(s.At(first).chans, 0).value);
    hide FirstFree, Calls, Replies, NothingOnWay;
  }

  // What becomes of every Send, in every run.

  ghost predicate WaitsOrReturned(v: Exchange, u: nat) {
    u in v.got || exists id :: id in v.chans && v.chans[id] == u
  }

  /** A Send that has begun waits on exactly one identifier, or has returned. */
  ghost predicate Accounted(v: Exchange) {
    v.Waiting() && forall u :: 0 <= u < |v.sent| ==> WaitsOrReturned(v, u)
  }

  lemma KeepsWaitsOrReturned(v: Exchange, m: Move, w: Exchange, u: nat)
    requires v.Legal(m) && Becomes(v, m, w) && WaitsOrReturned(v, u)
    ensures WaitsOrReturned(w, u)
  {
    hide Added, Removed;
    if u !in v.got {
      var id :| id in v.chans && v.chans[id] == u;
      match m {
        case Receive(r) => assert r.id == id || (id in w.chans && w.chans[id] == u);
        case Close =>
        case _ => assert id in w.chans && w.chans[id] == u;
      }
    }
  }

  lemma KeepsAccounted(v: Exchange, m: Move, w: Exchange)
    requires v.Known() && Accounted(v) && v.Legal(m) && Becomes(v, m, w)
    ensures Accounted(w)
  {
    KeepsWaiting(v, m, w);
    if m.Take? {
      assert m.id in w.chans && w.chans[m.id] == |v.sent|;
      assert WaitsOrReturned(w, |v.sent|);
    }
    assert |v.sent| <= |w.sent| <= |v.sent| + 1 && (!m.Take? ==> |w.sent| == |v.sent|);
    hide Added, Removed, Exchange.Waiting, Exchange.Known, Exchange.Legal, Becomes, WaitsOrReturned;
    forall u | 0 <= u < |w.sent|
      ensures WaitsOrReturned(w, u)
    {
      if u < |v.sent| {
        KeepsWaitsOrReturned(v, m, w, u);
      }
    }
  }

  lemma {:induction false} RunAccounted(states: seq<State>, steps: seq<Step>, i: nat, first: bool)
    requires Run(states, steps) && states[0] == INITIAL && i < |states|
    ensures Accounted(ViewOf(states[i], first))
  {
    if i > 0 {
      hide Enabled, Apply, ViewOf, Exchange.Known, Accounted;
      RunAccounted(states, steps, i - 1, first);
      RunKnown(states, steps, i - 1, first);
      assert Enabled(states[i - 1], steps[i - 1]);
      StepMoves(states[i - 1], steps[i - 1], first);
      var v, m := ViewOf(states[i - 1], first), MoveOf(states[i - 1], steps[i - 1], first);
      DoBecomes(v, m);
      KeepsAccounted(v, m, v.Do(m));
    }
  }

  /**
   * In every run, safe or not, each Send that has begun either has returned or is the one that waits on its identifier:
   * none is forgotten, whether its frame was written or the write failed, and none returns while it waits.
   */
  lemma EverySendAccounted(states: seq<State>, steps: seq<Step>, i: nat, first: bool, u: nat)
    requires Run(states, steps) && states[0] == INITIAL && i < |states| && u < |states[i].At(first).sent|
    ensures var x := states[i].At(first);
      && (u in x.got <==> u !in x.chans.Values)
      && (forall id, id' :: id in x.chans && id' in x.chans && x.chans[id] == u == x.chans[id'] ==> id == id')
  {
    RunAccounted(states, steps, i, first);
    var x := states[i].At(first);
    assert ViewOf(states[i], first).chans == x.chans && ViewOf(states[i], first).got == x.got;
    assert WaitsOrReturned(ViewOf(states[i], first), u);
    if id :| id in x.chans && x.chans[id] == u {
      assert u in x.chans.Values;
    }
  }

  /** CloseAll ends every Send that still waits, and no other. */
  lemma CloseEndsAll(states: seq<State>, steps: seq<Step>, i: nat, u: nat)
    requires Run(states, steps) && states[0] == INITIAL && i < |steps| && steps[i].CloseAll?
    requires u < |states[i].At(steps[i].first).sent|
    ensures var x, x' := states[i].At(steps[i].first), states[i + 1].At(steps[i].first);
            u in x'.got && x'.got[u] == if u in x.got then x.got[u] else EOF
  {
    var x := states[i].At(steps[i].first);
    EverySendAccounted(states, steps, i, steps[i].first, u);
    assert Enabled(states[i], steps[i]);
  }

  lemma ReturnedStays(v: Exchange, m: Move, w: Exchange, u: nat)
    requires v.Waiting() && Becomes(v, m, w) && u in v.got
    ensures u in w.got && w.got[u] == v.got[u]
  {
    hide Added, Removed;
  }

  lemma StepReturned(s: State, e: Step, first: bool, u: nat)
    requires Enabled(s, e) && ViewOf(s, first).Waiting() && u in s.At(first).got
    ensures u in Apply(s, e).At(first).got && Apply(s, e).At(first).got[u] == s.At(first).got[u]
  {
    StepMoves(s, e, first);
    var v, m := ViewOf(s, first), MoveOf(s, e, first);
    DoBecomes(v, m);
    hide Enabled, Apply, MoveOf, Exchange.Legal, Exchange.Waiting, Exchange.Do, Becomes;
    ReturnedStays(v, m, v.Do(m), u);
  }

  /** A Send returns once: what it returned stays. */
  lemma {:induction false} SendReturnsOnce(states: seq<State>, steps: seq<Step>, i: nat, j: nat, first: bool, u: nat)
    requires Run(states, steps) && states[0] == INITIAL && i <= j < |states| && u in states[i].At(first).got
    ensures u in states[j].At(first).got && states[j].At(first).got[u] == states[i].At(first).got[u]
  {
    hide Enabled, Apply, ViewOf, Exchange.Waiting, WaitsOrReturned;
    if i < j {
      SendReturnsOnce(states, steps, i, j - 1, first, u);
      RunAccounted(states, steps, j - 1, first);
      assert Enabled(states[j - 1], steps[j - 1]);
      StepReturned(states[j - 1], steps[j - 1], first, u);
    }
  }

  // Streams keep their order.

  /** What a step puts on an end's stream. */
  function Writes(s: State, e: Step, first: bool): seq<Frame>
    requires Enabled(s, e)
  {
    var x := s.At(first);
    if e.first != first then []
    else if e.Write? then [Request(x.drafts[e.k])]
    else if e.Finish? then [Response(Reply(x.handlers[e.k].id, e.answer, x.handlers[e.k].uid))]
    else []
  }

  /** How many frames a step of the other end reads off it. */
  function Reads(e: Step, first: bool): nat {
    if e.first != first && (e.TakeRequest? || e.TakeResponse?) then 1 else 0
  }

  lemma StepStream(s: State, e: Step, first: bool)
    requires Enabled(s, e)
    ensures Reads(e, first) <= |s.At(first).out|
    ensures Apply(s, e).At(first).out == s.At(first).out[Reads(e, first)..] + Writes(s, e, first)
  {
    hide FirstFree;
  }

  /** The frames an end wrote in the first `i` steps, in the order it wrote them. */
  ghost function Wrote(states: seq<State>, steps: seq<Step>, i: nat, first: bool): seq<Frame>
    requires Run(states, steps) && i <= |steps|
  {
    if i == 0 then [] else Wrote(states, steps, i - 1, first) + Writes(states[i - 1], steps[i - 1], first)
  }

  /** How many of them the other end has read. */
  function Taken(steps: seq<Step>, i: nat, first: bool): nat
    requires i <= |steps|
  {
    if i == 0 then 0 else Taken(steps, i - 1, first) + Reads(steps[i - 1], first)
  }

  /** Frames are read in the order they were written in, each once: the unread ones are the last written. */
  lemma {:induction false} StreamsKeepOrder(states: seq<State>, steps: seq<Step>, i: nat, first: bool)
    requires Run(states, steps) && states[0] == INITIAL && i < |states|
    ensures Taken(steps, i, first) <= |Wrote(states, steps, i, first)|
    ensures states[i].At(first).out == Wrote(states, steps, i, first)[Taken(steps, i, first)..]
  {
    hide Enabled, Apply, Writes, Reads;
    if i > 0 {
      StreamsKeepOrder(states, steps, i - 1, first);
      assert Enabled(states[i - 1], steps[i - 1]);
      StepStream(states[i - 1], steps[i - 1], first);
      var w, t, n := Wrote(states, steps, i - 1, first), Taken(steps, i - 1, first), Reads(steps[i - 1], first);
      assert w[t..][n..] == w[t + n..];
    }
  }
}
