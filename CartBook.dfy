/** The quantity editor of one cart line, Frontend/ordering_system/src/components/books/CartBook.tsx:
    the displayed count follows every click at once, while the change is
    reported to the cart only after 500 ms without a newer click, and only
    when it differs from the count the line was rendered with.

    Time is a virtual clock in milliseconds; the timer is the one pending
    commit the component holds. */
module CartBook {
  import opened Wrappers
  import CartStorage

  /** The delay `setTimeout` is given. */
  const DebounceMs := 500

  /** A scheduled commit: the count to report, the `item.count` the closure
      captured when it was scheduled, and the clock time it is due at. */
  datatype Pending = Pending(value: int, baseline: int, due: int)

  /** The editor's state: the `item.count` prop, the displayed
      `productCount`, the pending timer, the clock, and the counts reported
      through `onUpdateItemCount` so far. */
  datatype Editor = Editor(itemCount: int, displayed: int, pending: Option<Pending>, now: int, sent: seq<int>)

  /** What can happen to the editor: a change request, a click on plus or
      minus, time passing, and the parent re-rendering with a new `item.count`. */
  datatype Event = Change(count: int) | Plus | Minus | Elapse(ms: nat) | Props(count: int)

  /** A freshly mounted editor shows `item.count` and has nothing pending. */
  function Mount(itemCount: int, now: int): Editor {
    Editor(itemCount, itemCount, None, now, [])
  }

  /** The minus button is disabled exactly when the committed count is 1;
      the displayed count plays no part. */
  predicate MinusDisabled(e: Editor) {
    e.itemCount == 1
  }

  /** `handleUpdateProductCount(count)`: cancel the pending timer, schedule
      a new one 500 ms ahead, and show `count`. */
  function Request(e: Editor, count: int): Editor {
    e.(displayed := count, pending := Some(Pending(count, e.itemCount, e.now + DebounceMs)))
  }

  /** Whether the pending timer runs out while `ms` milliseconds pass. */
  predicate Fires(e: Editor, ms: nat) {
    e.pending.Some? && e.pending.value.due <= e.now + ms
  }

  /** The timer callback: report the count unless it equals the captured `item.count`. */
  function Commit(p: Pending): seq<int> {
    if p.value != p.baseline then [p.value] else []
  }

  function Step(e: Editor, ev: Event): Editor {
    match ev
    case Change(count) => Request(e, count)
    case Plus => Request(e, e.displayed + 1)
    case Minus => if MinusDisabled(e) then e else Request(e, e.displayed - 1)
    case Elapse(ms) =>
      if Fires(e, ms) then e.(pending := None, now := e.now + ms, sent := e.sent + Commit(e.pending.value))
      else e.(now := e.now + ms)
    case Props(count) => e.(itemCount := count)
  }

  function Run(e: Editor, evs: seq<Event>): Editor
    decreases |evs|
  {
    if evs == [] then e else Run(Step(e, evs[0]), evs[1..])
  }

  lemma {:induction false} RunConcat(e: Editor, a: seq<Event>, b: seq<Event>)
    ensures Run(e, a + b) == Run(Run(e, a), b)
    decreases |a|
  {
    if a == [] {
      assert a + b == b;
    } else {
      assert (a + b)[1..] == a[1..] + b;
      RunConcat(Step(e, a[0]), a[1..], b);
    }
  }

  lemma RunCons(e: Editor, ev: Event, rest: seq<Event>)
    ensures Run(e, [ev] + rest) == Run(Step(e, ev), rest)
  {
    assert ([ev] + rest)[1..] == rest;
  }

  lemma RunOne(e: Editor, ev: Event)
    ensures Run(e, [ev]) == Step(e, ev)
  {
    assert [ev][1..] == [];
  }

  /** What holds between events: a pending commit carries the displayed
      count and is due within the next 500 ms, but not yet. */
  predicate Valid(e: Editor) {
    e.pending.Some? ==>
      e.pending.value.value == e.displayed && e.now < e.pending.value.due <= e.now + DebounceMs
  }

  lemma StepKeepsValid(e: Editor, ev: Event)
    requires Valid(e)
    ensures Valid(Step(e, ev))
  {
  }

  /** A change request shows its count immediately and replaces whatever
      commit was pending by one for this count, due 500 ms from now; nothing
      is reported and the clock does not move. */
  lemma RequestReplacesPending(e: Editor, ev: Event)
    requires ev.Change? || ev.Plus? || (ev.Minus? && !MinusDisabled(e))
    ensures var count := match ev
                         case Change(n) => n
                         case Plus => e.displayed + 1
                         case _ => e.displayed - 1;
            var r := Step(e, ev);
            && r.displayed == count
            && r.pending == Some(Pending(count, e.itemCount, e.now + DebounceMs))
            && r.sent == e.sent && r.now == e.now && r.itemCount == e.itemCount
  {
  }

  /** Minus does nothing at all while the committed count is 1, whatever is
      displayed, and otherwise requests one less than is displayed. */
  lemma MinusRule(e: Editor)
    ensures MinusDisabled(e) ==> Step(e, Minus) == e
    ensures !MinusDisabled(e) ==> Step(e, Minus) == Step(e, Change(e.displayed - 1))
    ensures Step(e, Plus) == Step(e, Change(e.displayed + 1))
  {
  }

  /** Only the timer reports anything, and it reports at most one count: the
      pending one, when time runs out and the count differs from the
      captured `item.count`. */
  lemma StepReports(e: Editor, ev: Event)
    ensures Step(e, ev).sent ==
              e.sent + (if ev.Elapse? && Fires(e, ev.ms) then Commit(e.pending.value) else [])
    ensures Step(e, ev).pending.None? || Step(e, ev).sent == e.sent
  {
  }

  /** The user's clicks as a burst: each request followed by the pause
      before the next one. */
  datatype Keystroke = Keystroke(count: int, pause: nat)

  function Burst(ks: seq<Keystroke>): seq<Event>
    decreases |ks|
  {
    if ks == [] then [] else [Change(ks[0].count), Elapse(ks[0].pause)] + Burst(ks[1..])
  }

  function Pauses(ks: seq<Keystroke>): int
    decreases |ks|
  {
    if ks == [] then 0 else ks[0].pause + Pauses(ks[1..])
  }

  /** Every pause is shorter than the debounce delay. */
  predicate Hurried(ks: seq<Keystroke>) {
    forall i :: 0 <= i < |ks| ==> ks[i].pause < DebounceMs
  }

  /** Within a burst of requests less than 500 ms apart nothing is reported:
      afterwards the last request is displayed and is the one pending, due
      500 ms after it was made. */
  lemma {:induction false} BurstReportsNothing(e: Editor, ks: seq<Keystroke>)
    requires |ks| > 0 && Hurried(ks)
    ensures var r, last := Run(e, Burst(ks)), ks[|ks| - 1];
            && r.sent == e.sent && r.itemCount == e.itemCount
            && r.displayed == last.count
            && r.now == e.now + Pauses(ks)
            && r.pending == Some(Pending(last.count, e.itemCount, r.now - last.pause + DebounceMs))
    decreases |ks|
  {
    var first := [Change(ks[0].count), Elapse(ks[0].pause)];
    RunConcat(e, first, Burst(ks[1..]));
    var e1 := Run(e, first);
    assert e1 == Step(Step(e, Change(ks[0].count)), Elapse(ks[0].pause)) by {
      RunCons(e, Change(ks[0].count), [Elapse(ks[0].pause)]);
      RunOne(Step(e, Change(ks[0].count)), Elapse(ks[0].pause));
    }
    if |ks| > 1 {
      var rest := ks[1..];
      assert Hurried(rest) by {
        forall i | 0 <= i < |rest| ensures rest[i].pause < DebounceMs {
          assert rest[i] == ks[i + 1];
        }
      }
      BurstReportsNothing(e1, rest);
      assert rest[|rest| - 1] == ks[|ks| - 1];
    } else {
      assert Burst(ks[1..]) == [];
    }
  }

  /** After a burst, a quiet spell that lets the timer run out reports
      exactly the last requested count, once, and only when it differs from
      the `item.count` the line was rendered with; every earlier request of
      the burst is never reported. */
  lemma BurstThenQuiet(e: Editor, ks: seq<Keystroke>, quiet: nat)
    requires |ks| > 0 && Hurried(ks)
    requires ks[|ks| - 1].pause + quiet >= DebounceMs
    ensures var r, last := Run(e, Burst(ks) + [Elapse(quiet)]), ks[|ks| - 1];
            && r.sent == e.sent + (if last.count != e.itemCount then [last.count] else [])
            && r.pending.None? && r.displayed == last.count
  {
    BurstReportsNothing(e, ks);
    RunConcat(e, Burst(ks), [Elapse(quiet)]);
  }

  /** Going back to the rendered count before the timer runs out reports nothing. */
  lemma ReturnReportsNothing(e: Editor, there: int, pause: nat, quiet: nat)
    requires pause < DebounceMs && quiet >= DebounceMs
    ensures Run(e, [Change(there), Elapse(pause), Change(e.itemCount), Elapse(quiet)]).sent == e.sent
  {
    var e1 := Step(e, Change(there));
    var e2 := Step(e1, Elapse(pause));
    var e3 := Step(e2, Change(e.itemCount));
    assert e2.sent == e.sent && e2.itemCount == e.itemCount;
    assert Step(e3, Elapse(quiet)).sent == e.sent;
    RunCons(e, Change(there), [Elapse(pause), Change(e.itemCount), Elapse(quiet)]);
    RunCons(e1, Elapse(pause), [Change(e.itemCount), Elapse(quiet)]);
    RunCons(e2, Change(e.itemCount), [Elapse(quiet)]);
    RunOne(e3, Elapse(quiet));
  }

  /** The minus guard looks at the prop only: with `item.count` 2 three
      quick clicks on minus display -1, and -1 is what is reported. The
      cart store then keeps the line at one copy. */
  lemma MinusPastOne(cart: CartStorage.Cart, isbn: string)
    requires CartStorage.FirstMatch(cart, Some(isbn)).Some?
    ensures var r := Run(Mount(2, 0), [Minus, Minus, Minus, Elapse(DebounceMs)]);
            && r.displayed == -1 && r.sent == [-1]
            && var i := CartStorage.FirstMatch(cart, Some(isbn)).value;
               CartStorage.SetQuantity(cart, isbn, r.sent[0])[i].quantity == 1
  {
    var e0 := Mount(2, 0);
    var e1 := Step(e0, Minus);
    var e2 := Step(e1, Minus);
    var e3 := Step(e2, Minus);
    RunCons(e0, Minus, [Minus, Minus, Elapse(DebounceMs)]);
    RunCons(e1, Minus, [Minus, Elapse(DebounceMs)]);
    RunCons(e2, Minus, [Elapse(DebounceMs)]);
    RunOne(e3, Elapse(DebounceMs));
  }

  /** Requests for 2 at 0 ms, for 3 at 100 ms and for 5 at 599 ms on a
      line rendered with 1, then a quiet spell: each request replaces the
      previous one before its timer is due, and only 5 is reported. */
  lemma SupersededRequest()
    ensures Run(Mount(1, 0), [Change(2), Elapse(100), Change(3), Elapse(499), Change(5), Elapse(DebounceMs)]).sent
            == [5]
  {
    var e0 := Mount(1, 0);
    var e1 := Step(e0, Change(2));
    var e2 := Step(e1, Elapse(100));
    var e3 := Step(e2, Change(3));
    var e4 := Step(e3, Elapse(499));
    var e5 := Step(e4, Change(5));
    RunCons(e0, Change(2), [Elapse(100), Change(3), Elapse(499), Change(5), Elapse(DebounceMs)]);
    RunCons(e1, Elapse(100), [Change(3), Elapse(499), Change(5), Elapse(DebounceMs)]);
    RunCons(e2, Change(3), [Elapse(499), Change(5), Elapse(DebounceMs)]);
    RunCons(e3, Elapse(499), [Change(5), Elapse(DebounceMs)]);
    RunCons(e4, Change(5), [Elapse(DebounceMs)]);
    RunOne(e5, Elapse(DebounceMs));
  }

  /** The same requests with the last one at 600 ms: the timer of the
      100 ms request is due at that instant and runs first, so 3 is
      reported, and then 5. */
  lemma RequestAtDueTime()
    ensures Run(Mount(1, 0), [Change(2), Elapse(100), Change(3), Elapse(500), Change(5), Elapse(DebounceMs)]).sent
            == [3, 5]
  {
    var e0 := Mount(1, 0);
    var e1 := Step(e0, Change(2));
    var e2 := Step(e1, Elapse(100));
    var e3 := Step(e2, Change(3));
    assert e3 == Editor(1, 3, Some(Pending(3, 1, 600)), 100, []);
    var e4 := Step(e3, Elapse(500));
    assert e4 == Editor(1, 3, None, 600, [3]);
    var e5 := Step(e4, Change(5));
    RunCons(e0, Change(2), [Elapse(100), Change(3), Elapse(500), Change(5), Elapse(DebounceMs)]);
    RunCons(e1, Elapse(100), [Change(3), Elapse(500), Change(5), Elapse(DebounceMs)]);
    RunCons(e2, Change(3), [Elapse(500), Change(5), Elapse(DebounceMs)]);
    RunCons(e3, Elapse(500), [Change(5), Elapse(DebounceMs)]);
    RunCons(e4, Change(5), [Elapse(DebounceMs)]);
    RunOne(e5, Elapse(DebounceMs));
  }

  /** The component's state as React holds it: the `item.count` prop, the
      `productCount` and `timeOutId` state, the clock, and the reports made. */
  class CartLineEditor {
    var itemCount: int
    var productCount: int
    var timeOut: Option<Pending>
    var now: int
    var reported: seq<int>

    constructor (count: int, clock: int)
      ensures State() == Mount(count, clock)
    {
      itemCount, productCount, timeOut, now, reported := count, count, None, clock, [];
    }

    function State(): Editor
      reads this
    {
      Editor(itemCount, productCount, timeOut, now, reported)
    }

    /** `handleUpdateProductCount(count)`. */
    method HandleUpdateProductCount(count: int)
      modifies this
      ensures State() == Step(old(State()), Change(count))
    {
      timeOut := None;
      timeOut := Some(Pending(count, itemCount, now + DebounceMs));
      productCount := count;
    }

    /** The plus button. */
    method ClickPlus()
      modifies this
      ensures State() == Step(old(State()), Plus)
    {
      HandleUpdateProductCount(productCount + 1);
    }

    /** The minus button, which ignores clicks while disabled. */
    method ClickMinus()
      modifies this
      ensures State() == Step(old(State()), Minus)
    {
      if itemCount != 1 {
        HandleUpdateProductCount(productCount - 1);
      }
    }

    /** `ms` milliseconds pass; the timer callback runs if it falls due. */
    method AdvanceClock(ms: nat)
      modifies this
      ensures State() == Step(old(State()), Elapse(ms))
    {
      if timeOut.Some? && timeOut.value.due <= now + ms {
        var p := timeOut.value;
        if p.value != p.baseline {
          reported := reported + [p.value];
        }
        timeOut := None;
      }
      now := now + ms;
    }

    /** The parent re-renders the line with a new `item.count`; the
        displayed count, initialised from the prop once, stays as it is. */
    method Rerender(count: int)
      modifies this
      ensures State() == Step(old(State()), Props(count))
    {
      itemCount := count;
    }
  }
}
