/**
 What one turn's notifications add up to (harness/internal/acp/session.go,
 SendPrompt's process and maybeCancelForCost, appendClosing,
 handlePromptNotification, trackUsage).
 */
module PromptFold {
  import opened Wrappers

  /** What a notification says, as far as the turn's result is concerned. A usage
      update's size may come under either of two names; 0 is absent. */
  datatype Update =
    | Chunk(text: string, messageId: string)
    | Steer
    | ToolCall
    | Usage(cost: Option<real>, used: int, size: int, contextLimit: int)
    | Notice(message: string)
    | Ignored

  datatype Result = Result(
    chunks: seq<string>,
    closing: seq<string>,
    closingMessageId: string,
    notices: seq<string>,
    turnsUsed: nat,
    cost: real,
    sawCost: bool,
    context: (int, int),
    costLimitReached: bool)

  const EMPTY := Result([], [], "", [], 0, 0.0, false, (0, 0), false)

  function Appended(r: Result, text: string, id: string): Result {
    var n := |r.closing|;
    r.(closing := if n > 0 && (id == "" || id == r.closingMessageId)
                  then r.closing[n - 1 := r.closing[n - 1] + text] else r.closing + [text],
       closingMessageId := id)
  }

  function SizeOf(u: Update): int
    requires u.Usage?
  {
    if u.size == 0 then u.contextLimit else u.size
  }

  function Processed(r: Result, u: Update): Result {
    match u
    case Chunk(text, id) => Appended(r.(chunks := r.chunks + [text]), text, id)
    case Steer => r.(closing := [])
    case ToolCall => r.(turnsUsed := r.turnsUsed + 1, closing := [])
    case Usage(cost, used, _, _) =>
      var priced := if cost.Some? then r.(cost := cost.value, sawCost := true) else r;
      if SizeOf(u) > 0 then priced.(context := (used, SizeOf(u))) else priced
    case Notice(message) => if message != "" then r.(notices := r.notices + [message]) else r
    case Ignored => r
  }

  function Checked(r: Result, costLimit: real): Result {
    if costLimit > 0.0 && r.cost >= costLimit then r.(costLimitReached := true) else r
  }

  /** A turn whose first k notifications were folded in the wait, where the cost
      is checked after each, and whose others were drained with the reply. */
  function Turn(us: seq<Update>, k: nat, costLimit: real): Result {
    if us == [] then EMPTY
    else
      var r := Processed(Turn(us[..|us| - 1], k, costLimit), us[|us| - 1]);
      if |us| <= k then Checked(r, costLimit) else r
  }

  class PromptResult {
    var chunks: seq<string>
    var closing: seq<string>
    var closingMessageId: string
    var notices: seq<string>
    var turnsUsed: nat
    var cost: real
    var sawCost: bool
    var context: (int, int)
    var costLimitReached: bool

    function State(): Result
      reads this
    {
      Result(chunks, closing, closingMessageId, notices, turnsUsed, cost, sawCost, context, costLimitReached)
    }

    constructor ()
      ensures State() == EMPTY
    {
      chunks, closing, closingMessageId, notices := [], [], "", [];
      turnsUsed, cost, sawCost, context, costLimitReached := 0, 0.0, false, (0, 0), false;
    }

    method AppendClosing(text: string, id: string)
      modifies this`closing, this`closingMessageId
      ensures State() == Appended(old(State()), text, id)
    {
      var n := |closing|;
      if n > 0 && (id == "" || id == closingMessageId) {
        closing := closing[n - 1 := closing[n - 1] + text];
      } else {
        closing := closing + [text];
      }
      closingMessageId := id;
    }

    method Process(u: Update)
      modifies this
      ensures State() == Processed(old(State()), u)
    {
      if u.ToolCall? {
        turnsUsed := turnsUsed + 1;
      }
      HandlePromptNotification(u);
      TrackUsage(u);
    }

    method HandlePromptNotification(u: Update)
      modifies this`chunks, this`closing, this`closingMessageId, this`notices
      ensures State() == if u.Usage? then old(State())
                         else if u.ToolCall? then old(State()).(closing := []) else Processed(old(State()), u)
    {
      match u {
        case Notice(message) =>
          if message != "" {
            notices := notices + [message];
          }
        case Chunk(text, id) =>
          chunks := chunks + [text];
          AppendClosing(text, id);
        case Steer =>
          closing := [];
        case ToolCall =>
          closing := [];
        case _ =>
      }
    }

    method TrackUsage(u: Update)
      modifies this`cost, this`sawCost, this`context
      ensures State() == if u.Usage? then Processed(old(State()), u) else old(State())
    {
      if !u.Usage? {
        return;
      }
      if u.cost.Some? {
        cost, sawCost := u.cost.value, true;
      }
      var size := u.size;
      if size == 0 {
        size := u.contextLimit;
      }
      if size > 0 {
        context := (u.used, size);
      }
    }

    /** At most once, for the flag is never taken back. */
    method MaybeCancelForCost(costLimit: real) returns (cancel: bool)
      modifies this`costLimitReached
      ensures State() == Checked(old(State()), costLimit)
      ensures cancel <==> costLimit > 0.0 && cost >= costLimit && !old(costLimitReached)
    {
      cancel := costLimit > 0.0 && !costLimitReached && cost >= costLimit;
      if cancel {
        costLimitReached := true;
      }
    }
  }

  // ----- What the result means, from the notifications alone -----

  predicate Resets(u: Update) { u.Steer? || u.ToolCall? }

  /** What followed the last tool call or steer. */
  function Tail(us: seq<Update>): (t: seq<Update>)
    ensures forall u | u in t :: !Resets(u)
  {
    if us == [] || Resets(us[|us| - 1]) then [] else Tail(us[..|us| - 1]) + [us[|us| - 1]]
  }

  function Said(us: seq<Update>): seq<Update> {
    if us == [] then []
    else Said(us[..|us| - 1]) + if us[|us| - 1].Chunk? then [us[|us| - 1]] else []
  }

  /** The chunk goes on with the message of the one before it. */
  predicate Continues(before: Update, c: Update)
    requires before.Chunk? && c.Chunk?
  {
    c.messageId == "" || c.messageId == before.messageId
  }

  /** Chunks as messages. */
  function Messages(cs: seq<Update>): (ms: seq<string>)
    requires forall c | c in cs :: c.Chunk?
    ensures ms == [] <==> cs == []
  {
    if cs == [] then []
    else
      var init, c := cs[..|cs| - 1], cs[|cs| - 1];
      var before := Messages(init);
      if init != [] && Continues(init[|init| - 1], c)
      then before[|before| - 1 := before[|before| - 1] + c.text] else before + [c.text]
  }

  function Text(ms: seq<string>): string {
    if ms == [] then "" else Text(ms[..|ms| - 1]) + ms[|ms| - 1]
  }

  function Texts(cs: seq<Update>): (ts: seq<string>)
    requires forall c | c in cs :: c.Chunk?
  {
    if cs == [] then [] else Texts(cs[..|cs| - 1]) + [cs[|cs| - 1].text]
  }

  lemma {:induction false} SaidAreChunks(us: seq<Update>)
    ensures forall c | c in Said(us) :: c.Chunk?
  {
    if us == [] {
    } else {
      SaidAreChunks(us[..|us| - 1]);
    }
  }

  function Calls(us: seq<Update>): nat {
    if us == [] then 0 else Calls(us[..|us| - 1]) + if us[|us| - 1].ToolCall? then 1 else 0
  }

  /** The last cost reported. */
  function Cost(us: seq<Update>): Option<real> {
    if us == [] then None
    else if us[|us| - 1].Usage? && us[|us| - 1].cost.Some? then us[|us| - 1].cost
    else Cost(us[..|us| - 1])
  }

  /** The notices that say something, in order. */
  function Notices(us: seq<Update>): seq<string> {
    if us == [] then []
    else
      var u := us[|us| - 1];
      Notices(us[..|us| - 1]) + if u.Notice? && u.message != "" then [u.message] else []
  }

  /** The last usage update that gave a size, under whichever name. */
  predicate GivesSize(u: Update) { u.Usage? && (u.size > 0 || (u.size == 0 && u.contextLimit > 0)) }

  function Context(us: seq<Update>): (int, int) {
    if us == [] then (0, 0)
    else
      var u := us[|us| - 1];
      if GivesSize(u) then (u.used, if u.size == 0 then u.contextLimit else u.size) else Context(us[..|us| - 1])
  }

  function CostOrZero(us: seq<Update>): real { if Cost(us).Some? then Cost(us).value else 0.0 }

  /** What a notification does to the totals. */
  predicate Totalled(before: Result, r: Result, u: Update) {
    && r.chunks == (if u.Chunk? then before.chunks + [u.text] else before.chunks)
    && r.turnsUsed == before.turnsUsed + (if u.ToolCall? then 1 else 0)
    && r.sawCost == (before.sawCost || (u.Usage? && u.cost.Some?))
    && r.cost == (if u.Usage? && u.cost.Some? then u.cost.value else before.cost)
    && r.notices == (if u.Notice? && u.message != "" then before.notices + [u.message] else before.notices)
    && r.context == (if GivesSize(u) then (u.used, if u.size == 0 then u.contextLimit else u.size) else before.context)
  }

  lemma ProcessedTotals(r: Result, u: Update)
    ensures Totalled(r, Processed(r, u), u)
  {
    match u
    case Chunk(text, id) =>
      var kept := r.(chunks := r.chunks + [text]);
      var later := Appended(kept, text, id);
      assert later == kept.(closing := later.closing, closingMessageId := later.closingMessageId);
    case _ =>
  }

  /** One more notification, whether or not the cost is checked after it. */
  lemma OneMore(us: seq<Update>, k: nat, costLimit: real)
    requires us != []
    ensures var before, r, u := Turn(us[..|us| - 1], k, costLimit), Turn(us, k, costLimit), us[|us| - 1];
            && Totalled(before, r, u)
            && r.closing == Processed(before, u).closing && r.closingMessageId == Processed(before, u).closingMessageId
  {
    ProcessedTotals(Turn(us[..|us| - 1], k, costLimit), us[|us| - 1]);
  }

  lemma MessagesGrow(cs: seq<Update>, c: Update)
    requires c.Chunk? && (forall x | x in cs :: x.Chunk?)
    ensures forall x | x in cs + [c] :: x.Chunk?
    ensures var before := Messages(cs);
            Messages(cs + [c]) ==
            if cs != [] && Continues(cs[|cs| - 1], c)
            then before[|before| - 1 := before[|before| - 1] + c.text] else before + [c.text]
  {
    assert (cs + [c])[..|cs|] == cs && (cs + [c])[|cs|] == c;
  }

  /** The closing text is these chunks. */
  predicate Closing(r: Result, cs: seq<Update>) {
    && (forall c | c in cs :: c.Chunk?)
    && r.closing == Messages(cs)
    && (cs != [] ==> r.closingMessageId == cs[|cs| - 1].messageId)
  }

  /** One more chunk joins the last message or starts the next. */
  lemma OneMoreChunk(r: Result, cs: seq<Update>, c: Update)
    requires c.Chunk? && Closing(r, cs)
    ensures Closing(Processed(r, c), cs + [c])
  {
    MessagesGrow(cs, c);
    var kept := r.(chunks := r.chunks + [c.text]);
    assert kept.closing == r.closing && kept.closingMessageId == r.closingMessageId;
    assert Processed(r, c) == Appended(kept, c.text, c.messageId);
  }

  lemma OtherUpdate(r: Result, cs: seq<Update>, u: Update)
    requires !u.Chunk? && Closing(r, cs)
    ensures Closing(Processed(r, u), if Resets(u) then [] else cs)
  {
  }

  lemma TailGrows(us: seq<Update>)
    requires us != [] && !Resets(us[|us| - 1])
    ensures var u := us[|us| - 1];
            Said(Tail(us)) == if u.Chunk? then Said(Tail(us[..|us| - 1])) + [u] else Said(Tail(us[..|us| - 1]))
  {
    assert Tail(us)[..|Tail(us)| - 1] == Tail(us[..|us| - 1]);
    assert Said(Tail(us[..|us| - 1])) + [] == Said(Tail(us[..|us| - 1]));
  }

  /** The closing text is what was said after the last tool call or steer, one
      entry a message, and so does not depend on anything said before it, nor on
      which notifications were folded before the reply and which with it. */
  lemma {:induction false} ClosingIsTheTail(us: seq<Update>, k: nat, costLimit: real)
    ensures Closing(Turn(us, k, costLimit), Said(Tail(us)))
  {
    if us != [] {
      var init, u := us[..|us| - 1], us[|us| - 1];
      ClosingIsTheTail(init, k, costLimit);
      OneMore(us, k, costLimit);
      if u.Chunk? {
        OneMoreChunk(Turn(init, k, costLimit), Said(Tail(init)), u);
      } else {
        OtherUpdate(Turn(init, k, costLimit), Said(Tail(init)), u);
      }
      if !Resets(u) {
        TailGrows(us);
      }
    }
  }

  /** Nothing said is lost or added: the messages hold the chunks' text, in order. */
  lemma {:induction false} MessagesHoldTheText(cs: seq<Update>)
    requires forall c | c in cs :: c.Chunk?
    ensures Text(Messages(cs)) == Text(Texts(cs))
  {
    if cs == [] {
    } else {
      var init, c := cs[..|cs| - 1], cs[|cs| - 1];
      MessagesHoldTheText(init);
      var before := Messages(init);
      assert Texts(cs)[..|Texts(cs)| - 1] == Texts(init);
      if init != [] && Continues(init[|init| - 1], c) {
        LastGrows(before, c.text);
      } else {
        assert (before + [c.text])[..|before|] == before;
      }
    }
  }

  lemma LastGrows(ms: seq<string>, t: string)
    requires ms != []
    ensures Text(ms[|ms| - 1 := ms[|ms| - 1] + t]) == Text(ms) + t
  {
    var later := ms[|ms| - 1 := ms[|ms| - 1] + t];
    assert later[..|ms| - 1] == ms[..|ms| - 1];
    assert Text(ms[..|ms| - 1]) + (ms[|ms| - 1] + t) == Text(ms[..|ms| - 1]) + ms[|ms| - 1] + t;
  }

  /** Every chunk is kept, every tool call counted, every notice noted, and cost and
      context are the last reported. */
  lemma {:induction false} TotalsAreOfTheWholeTurn(us: seq<Update>, k: nat, costLimit: real)
    ensures forall c | c in Said(us) :: c.Chunk?
    ensures Turn(us, k, costLimit).chunks == Texts(Said(us))
    ensures Turn(us, k, costLimit).turnsUsed == Calls(us)
    ensures Turn(us, k, costLimit).sawCost == Cost(us).Some?
    ensures Turn(us, k, costLimit).cost == CostOrZero(us)
    ensures Turn(us, k, costLimit).notices == Notices(us)
    ensures Turn(us, k, costLimit).context == Context(us)
  {
    SaidAreChunks(us);
    if us != [] {
      var init, u := us[..|us| - 1], us[|us| - 1];
      TotalsAreOfTheWholeTurn(init, k, costLimit);
      OneMore(us, k, costLimit);
      if u.Chunk? {
        assert Said(us)[..|Said(us)| - 1] == Said(init);
      } else {
        assert Said(init) + [] == Said(init);
      }
      assert Notices(init) + [] == Notices(init);
    }
  }

  // ----- The one part that depends on the schedule -----

  lemma FlagIsOnlyCarried(r: Result, u: Update, flag: bool)
    ensures Processed(r.(costLimitReached := flag), u) == Processed(r, u).(costLimitReached := flag)
  {
  }

  /** All of the result but the cost flag is the same however the notifications
      fell between the wait and the drain. */
  lemma {:induction false} OnlyTheCostFlagDependsOnTheSchedule(us: seq<Update>, k: nat, k': nat, costLimit: real)
    ensures Turn(us, k, costLimit).(costLimitReached := false) == Turn(us, k', costLimit).(costLimitReached := false)
  {
    if us == [] {
    } else {
      var r, r', u := Turn(us[..|us| - 1], k, costLimit), Turn(us[..|us| - 1], k', costLimit), us[|us| - 1];
      OnlyTheCostFlagDependsOnTheSchedule(us[..|us| - 1], k, k', costLimit);
      FlagIsOnlyCarried(r, u, false);
      FlagIsOnlyCarried(r', u, false);
    }
  }

  /** The limit is noticed exactly when the cost reached it at some notification
      folded in the wait: one that arrives with the reply goes unnoticed. */
  lemma {:induction false} CostIsNoticedOnlyInTheWait(us: seq<Update>, k: nat, costLimit: real)
    ensures Turn(us, k, costLimit).costLimitReached <==>
            costLimit > 0.0 && exists j :: 1 <= j <= |us| && j <= k && Reached(us[..j], costLimit)
  {
    if us == [] {
    } else {
      var init := us[..|us| - 1];
      CostIsNoticedOnlyInTheWait(init, k, costLimit);
      TotalsAreOfTheWholeTurn(us, k, costLimit);
      assert forall j | 1 <= j <= |init| :: init[..j] == us[..j];
      assert us[..|us|] == us;
      assert Turn(us, k, costLimit).costLimitReached <==>
             Turn(init, k, costLimit).costLimitReached || (|us| <= k && costLimit > 0.0 && Reached(us, costLimit)) by {
        FlagMovesOnce(us, k, costLimit);
      }
    }
  }

  predicate Reached(us: seq<Update>, costLimit: real) {
    CostOrZero(us) >= costLimit
  }

  lemma FlagMovesOnce(us: seq<Update>, k: nat, costLimit: real)
    requires us != []
    ensures Turn(us, k, costLimit).costLimitReached <==>
            Turn(us[..|us| - 1], k, costLimit).costLimitReached
            || (|us| <= k && costLimit > 0.0 && Reached(us, costLimit))
  {
    TotalsAreOfTheWholeTurn(us, k, costLimit);
  }
}
