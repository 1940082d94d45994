/** One-to-many delivery: `Send` hands a value to every subscription exactly once, working in place on
    one array of select cases while subscribers come and go. One channel may be subscribed several
    times, so subscriptions are counted, not just listed. */
module Feed {

  /** Channels are opaque identities. A select case is its channel; the first case of the list
      receives removals and all others send. */
  type Chan = nat
  const REMOVE_SUB: Chan := 0

  /** The list begins with the removal case, which does not occur again. */
  predicate Headed(s: seq<Chan>) {
    |s| > 0 && s[0] == REMOVE_SUB && REMOVE_SUB !in s[1..]
  }

  // ---- The case list, in place ----

  /** The index of the first case with the channel, or -1. */
  method Find(cs: seq<Chan>, ch: Chan) returns (index: int)
    ensures index == -1 <==> ch !in cs
    ensures index != -1 ==> 0 <= index < |cs| && cs[index] == ch && ch !in cs[..index]
  {
    for i := 0 to |cs|
      invariant ch !in cs[..i]
    {
      if cs[i] == ch {
        return i;
      }
    }
    return -1;
  }

  function Without(s: seq<Chan>, i: nat): seq<Chan>
    requires i < |s|
  {
    s[..i] + s[i + 1..]
  }

  /** Remove the case at `index` from the first `n`, moving the later ones down. */
  method Delete(a: array<Chan>, n: nat, index: nat)
    requires index < n <= a.Length
    modifies a
    ensures a[..n - 1] == Without(old(a[..n]), index)
  {
    var i := index;
    while i < n - 1
      invariant index <= i <= n - 1
      invariant forall k :: 0 <= k < i ==> a[k] == old(a[if k < index then k else k + 1])
      invariant forall k :: i < k < n ==> a[k] == old(a[k])
    {
      a[i] := a[i + 1];
      i := i + 1;
    }
  }

  function Swapped(s: seq<Chan>, i: nat, j: nat): seq<Chan>
    requires i < |s| && j < |s|
  {
    seq(|s|, k requires 0 <= k < |s| => if k == i then s[j] else if k == j then s[i] else s[k])
  }

  /** Move the case at `index` to the end of the first `m` and out of them; `n` is the length of the
      whole list. */
  method Deactivate(a: array<Chan>, ghost n: nat, m: nat, index: nat) returns (m': nat)
    requires index < m <= n <= a.Length
    modifies a
    ensures m' == m - 1 && a[..n] == Swapped(old(a[..n]), index, m - 1)
  {
    var last := m - 1;
    a[index], a[last] := a[last], a[index];
    m' := last;
  }

  // ---- One Send, as seen on the list of cases ----

  /** `s` is the case list, its first `m` cases still active; `start` was the list when the inbox was
      merged. Each case of `start` is still in the list or was removed, before it took the value
      (`missed`) or after (`served`); what is inactive or served has been delivered to, and no other. */
  ghost predicate Sending(s: seq<Chan>, m: nat, start: seq<Chan>, delivered: seq<Chan>,
                          missed: multiset<Chan>, served: multiset<Chan>) {
    && 1 <= m <= |s| && Headed(s)
    && forall ch {:trigger SendingAt(s, m, start, delivered, missed, served, ch)} ::
         SendingAt(s, m, start, delivered, missed, served, ch)
  }

  /** The same, counted for one channel. */
  ghost predicate SendingAt(s: seq<Chan>, m: nat, start: seq<Chan>, delivered: seq<Chan>,
                            missed: multiset<Chan>, served: multiset<Chan>, ch: Chan)
    requires m <= |s|
  {
    && multiset(s)[ch] + missed[ch] + served[ch] == multiset(start)[ch]
    && multiset(s[m..])[ch] + served[ch] == multiset(delivered)[ch]
  }

  /** Taking out one case takes out one occurrence of its channel. */
  lemma WithoutCount(s: seq<Chan>, i: nat)
    requires i < |s|
    ensures multiset(Without(s, i)) + multiset{s[i]} == multiset(s)
  {
    assert s == s[..i] + [s[i]] + s[i + 1..];
  }

  lemma WithoutAt(s: seq<Chan>, i: nat, ch: Chan)
    requires i < |s|
    ensures multiset(Without(s, i))[ch] + (if s[i] == ch then 1 else 0) == multiset(s)[ch]
  {
    WithoutCount(s, i);
    assert (multiset(Without(s, i)) + multiset{s[i]})[ch] == multiset(s)[ch];
  }

  lemma WithoutHeaded(s: seq<Chan>, i: nat)
    requires Headed(s) && 1 <= i < |s|
    ensures Headed(Without(s, i)) && multiset(Without(s, i)[1..]) + multiset{s[i]} == multiset(s[1..])
  {
    assert Without(s, i)[1..] == Without(s[1..], i - 1);
    WithoutCount(s[1..], i - 1);
  }

  lemma SwappedSame(s: seq<Chan>, i: nat, j: nat)
    requires i < |s| && j < |s|
    ensures multiset(Swapped(s, i, j)) == multiset(s)
  {
    assert Swapped(s, i, j) == s[i := s[j]][j := s[i]];
  }

  lemma SwappedCount(s: seq<Chan>, m: nat, i: nat)
    requires 1 <= i < m <= |s| && Headed(s)
    ensures var t := Swapped(s, i, m - 1);
      && Headed(t) && multiset(t) == multiset(s) && multiset(t[1..]) == multiset(s[1..])
      && multiset(t[m - 1..]) == multiset(s[m..]) + multiset{s[i]}
  {
    var t := Swapped(s, i, m - 1);
    SwappedSame(s, i, m - 1);
    SwappedSame(s[1..], i - 1, m - 2);
    assert t[m - 1..] == [s[i]] + s[m..];
    assert t[1..] == Swapped(s[1..], i - 1, m - 2);
    assert REMOVE_SUB !in multiset(s[1..]);
  }

  /** A delivery moves the case out of the active ones. */
  lemma DeliverStep(s: seq<Chan>, m: nat, start: seq<Chan>, delivered: seq<Chan>,
                    missed: multiset<Chan>, served: multiset<Chan>, i: nat, s': seq<Chan>, delivered': seq<Chan>)
    requires Sending(s, m, start, delivered, missed, served) && 1 <= i < m
    requires s' == Swapped(s, i, m - 1) && delivered' == delivered + [s[i]]
    ensures Sending(s', m - 1, start, delivered', missed, served)
  {
    SwappedCount(s, m, i);
    var k: nat := m - 1;
    forall ch ensures SendingAt(s', k, start, delivered', missed, served, ch) {
      assert SendingAt(s, m, start, delivered, missed, served, ch);
    }
  }

  /** A removal of a case that was still active shrinks the active part with the list. */
  lemma RemoveActive(s: seq<Chan>, m: nat, start: seq<Chan>, delivered: seq<Chan>, missed: multiset<Chan>,
                     served: multiset<Chan>, i: nat, t: seq<Chan>, missed': multiset<Chan>)
    requires Sending(s, m, start, delivered, missed, served) && 1 <= i < m
    requires t == Without(s, i) && missed' == missed + multiset{s[i]}
    ensures Sending(t, m - 1, start, delivered, missed', served)
  {
    WithoutHeaded(s, i);
    assert t[m - 1..] == s[m..];
    var k: nat := m - 1;
    forall ch ensures SendingAt(t, k, start, delivered, missed', served, ch) {
      assert SendingAt(s, m, start, delivered, missed, served, ch);
      WithoutAt(s, i, ch);
    }
  }

  /** A removal of a case that had taken the value leaves the active part alone. */
  lemma RemoveServed(s: seq<Chan>, m: nat, start: seq<Chan>, delivered: seq<Chan>, missed: multiset<Chan>,
                     served: multiset<Chan>, i: nat, t: seq<Chan>, served': multiset<Chan>)
    requires Sending(s, m, start, delivered, missed, served) && m <= i < |s|
    requires t == Without(s, i) && served' == served + multiset{s[i]}
    ensures Sending(t, m, start, delivered, missed, served')
  {
    WithoutHeaded(s, i);
    assert t[m..] == Without(s[m..], i - m);
    forall ch ensures SendingAt(t, m, start, delivered, missed, served', ch) {
      assert SendingAt(s, m, start, delivered, missed, served, ch);
      WithoutAt(s, i, ch);
      WithoutAt(s[m..], i - m, ch);
    }
  }

  /** When no case is active any more, every subscription of the start took the value or was removed
      before it could. */
  lemma SendEnds(s: seq<Chan>, start: seq<Chan>, delivered: seq<Chan>, missed: multiset<Chan>, served: multiset<Chan>)
    requires Sending(s, 1, start, delivered, missed, served) && Headed(start)
    ensures multiset(delivered) + missed == multiset(start[1..])
    ensures multiset(s[1..]) + missed + served == multiset(start[1..])
  {
    assert s == [REMOVE_SUB] + s[1..] && start == [REMOVE_SUB] + start[1..];
    forall ch
      ensures multiset(delivered)[ch] + missed[ch] == multiset(start[1..])[ch]
      ensures multiset(s[1..])[ch] + missed[ch] + served[ch] == multiset(start[1..])[ch]
    {
      assert SendingAt(s, 1, start, delivered, missed, served, ch);
      assert multiset(s)[ch] == multiset{REMOVE_SUB}[ch] + multiset(s[1..])[ch];
      assert multiset(start)[ch] == multiset{REMOVE_SUB}[ch] + multiset(start[1..])[ch];
    }
  }

  // ---- What other goroutines ask for ----

  /** A subscription, or the unsubscription of one of the subscriptions of a channel. */
  datatype Request = Subscribe(ch: Chan) | Unsubscribe(ch: Chan)

  predicate LegalOne(open: multiset<Chan>, request: Request) {
    match request
    case Subscribe(ch) => ch != REMOVE_SUB
    case Unsubscribe(ch) => ch in open
  }

  function OpenAfter(open: multiset<Chan>, request: Request): multiset<Chan> {
    match request
    case Subscribe(ch) => open + multiset{ch}
    case Unsubscribe(ch) => open - multiset{ch}
  }

  /** The requests can be made in this order when `open` counts the subscriptions that have not been
      unsubscribed: only those are, and each once. */
  ghost predicate Legal(open: multiset<Chan>, requests: seq<Request>)
    decreases requests
  {
    requests == [] || (LegalOne(open, requests[0]) && Legal(OpenAfter(open, requests[0]), requests[1..]))
  }

  function FirstIndex(s: seq<Chan>, ch: Chan): (i: nat)
    requires ch in s
    ensures i < |s| && s[i] == ch && ch !in s[..i]
  {
    if s[0] == ch then 0 else 1 + FirstIndex(s[1..], ch)
  }

  /** The list without the first case of the channel, if there is one. */
  function Dropped(s: seq<Chan>, ch: Chan): seq<Chan> {
    if ch in s then Without(s, FirstIndex(s, ch)) else s
  }

  /** What requests leave: the inbox, and the unsubscriptions that did not find their channel there and
      wait for its case to go. */
  datatype Effect = Effect(inbox: seq<Chan>, waits: multiset<Chan>)

  ghost function HandleOne(e: Effect, request: Request): Effect {
    match request
    case Subscribe(ch) => e.(inbox := e.inbox + [ch])
    case Unsubscribe(ch) =>
      Effect(Dropped(e.inbox, ch), if ch in e.inbox then e.waits else e.waits + multiset{ch})
  }

  /** The first `n` requests, on an empty inbox. */
  ghost function Handled(requests: seq<Request>, n: nat): Effect
    requires n <= |requests|
  {
    if n == 0 then Effect([], multiset{}) else HandleOne(Handled(requests, n - 1), requests[n - 1])
  }

  /** Only what asked for it waits to be removed. */
  lemma {:induction false} WaitsRequested(requests: seq<Request>, n: nat, ch: Chan)
    requires n <= |requests| && Unsubscribe(ch) !in requests[..n]
    ensures Handled(requests, n).waits[ch] == 0
    decreases n
  {
    if n > 0 {
      assert requests[n - 1] in requests[..n] && requests[..n - 1] <= requests[..n];
      WaitsRequested(requests, n - 1, ch);
    }
  }

  /** What was taken out of the list and what still waits is what waited before and what arrived. */
  ghost predicate Owed(missed: multiset<Chan>, served: multiset<Chan>, waiting: multiset<Chan>, before: multiset<Chan>,
                       arrived: multiset<Chan>) {
    forall ch {:trigger OwedAt(missed, served, waiting, before, arrived, ch)} ::
      OwedAt(missed, served, waiting, before, arrived, ch)
  }

  ghost predicate OwedAt(missed: multiset<Chan>, served: multiset<Chan>, waiting: multiset<Chan>, before: multiset<Chan>,
                         arrived: multiset<Chan>, ch: Chan) {
    missed[ch] + served[ch] + waiting[ch] == before[ch] + arrived[ch]
  }

  lemma OwedMore(missed: multiset<Chan>, served: multiset<Chan>, waiting: multiset<Chan>, before: multiset<Chan>,
                 arrived: multiset<Chan>, x: Chan)
    requires Owed(missed, served, waiting, before, arrived)
    ensures Owed(missed, served, waiting + multiset{x}, before, arrived + multiset{x})
  {
    forall ch ensures OwedAt(missed, served, waiting + multiset{x}, before, arrived + multiset{x}, ch) {
      assert OwedAt(missed, served, waiting, before, arrived, ch);
    }
  }

  lemma OwedLess(missed: multiset<Chan>, served: multiset<Chan>, waiting: multiset<Chan>, before: multiset<Chan>,
                 arrived: multiset<Chan>, x: Chan)
    requires Owed(missed, served, waiting, before, arrived) && x in waiting
    ensures Owed(missed + multiset{x}, served, waiting - multiset{x}, before, arrived)
    ensures Owed(missed, served + multiset{x}, waiting - multiset{x}, before, arrived)
  {
    forall ch
      ensures OwedAt(missed + multiset{x}, served, waiting - multiset{x}, before, arrived, ch)
      ensures OwedAt(missed, served + multiset{x}, waiting - multiset{x}, before, arrived, ch)
    {
      assert OwedAt(missed, served, waiting, before, arrived, ch);
    }
  }

  // ---- The account of subscriptions ----

  /** Every subscription, not unsubscribed (`open`) or waiting for its removal, is in exactly one of the
      inbox and the case list `s`, and every one that waits has a case. */
  ghost predicate Accounted(s: seq<Chan>, inbox: seq<Chan>, waiting: multiset<Chan>, open: multiset<Chan>) {
    && Headed(s) && REMOVE_SUB !in inbox
    && forall ch {:trigger AccountedAt(s, inbox, waiting, open, ch)} :: AccountedAt(s, inbox, waiting, open, ch)
  }

  ghost predicate AccountedAt(s: seq<Chan>, inbox: seq<Chan>, waiting: multiset<Chan>, open: multiset<Chan>, ch: Chan)
    requires |s| > 0
  {
    && open[ch] + waiting[ch] == multiset(inbox)[ch] + multiset(s[1..])[ch]
    && waiting[ch] <= multiset(s[1..])[ch]
  }

  lemma AccountStarts()
    ensures Accounted([REMOVE_SUB], [], multiset{}, multiset{})
  {
    assert [REMOVE_SUB][1..] == [];
  }

  /** What waits for removal has a case. */
  lemma WaitingHasCase(s: seq<Chan>, inbox: seq<Chan>, waiting: multiset<Chan>, open: multiset<Chan>, ch: Chan)
    requires Accounted(s, inbox, waiting, open) && ch in waiting
    ensures ch != REMOVE_SUB && ch in s
  {
    assert AccountedAt(s, inbox, waiting, open, ch);
    assert ch in s[1..];
  }

  lemma AccountSubscribe(s: seq<Chan>, inbox: seq<Chan>, waiting: multiset<Chan>, open: multiset<Chan>, x: Chan)
    requires Accounted(s, inbox, waiting, open) && x != REMOVE_SUB
    ensures Accounted(s, inbox + [x], waiting, open + multiset{x})
  {
    forall ch ensures AccountedAt(s, inbox + [x], waiting, open + multiset{x}, ch) {
      assert AccountedAt(s, inbox, waiting, open, ch);
    }
  }

  lemma AccountDropCase(s: seq<Chan>, inbox: seq<Chan>, waiting: multiset<Chan>, open: multiset<Chan>, i: nat,
                        s': seq<Chan>)
    requires Accounted(s, inbox, waiting, open) && 1 <= i < |s| && s[i] in waiting && s' == Without(s, i)
    ensures Accounted(s', inbox, waiting - multiset{s[i]}, open)
  {
    WithoutHeaded(s, i);
    forall ch ensures AccountedAt(s', inbox, waiting - multiset{s[i]}, open, ch) {
      assert AccountedAt(s, inbox, waiting, open, ch);
      assert (multiset(s'[1..]) + multiset{s[i]})[ch] == multiset(s[1..])[ch];
    }
  }

  lemma AccountDropInbox(s: seq<Chan>, inbox: seq<Chan>, waiting: multiset<Chan>, open: multiset<Chan>, i: nat)
    requires Accounted(s, inbox, waiting, open) && i < |inbox| && inbox[i] in open
    ensures Accounted(s, Without(inbox, i), waiting, open - multiset{inbox[i]})
  {
    WithoutCount(inbox, i);
    forall ch ensures AccountedAt(s, Without(inbox, i), waiting, open - multiset{inbox[i]}, ch) {
      assert AccountedAt(s, inbox, waiting, open, ch);
      assert (multiset(Without(inbox, i)) + multiset{inbox[i]})[ch] == multiset(inbox)[ch];
    }
  }

  /** A subscription that is not in the inbox has a case that nobody waits for. */
  lemma AccountWait(s: seq<Chan>, inbox: seq<Chan>, waiting: multiset<Chan>, open: multiset<Chan>, x: Chan)
    requires Accounted(s, inbox, waiting, open) && x !in inbox && x in open
    ensures Accounted(s, inbox, waiting + multiset{x}, open - multiset{x})
  {
    assert multiset(inbox)[x] == 0;
    forall ch ensures AccountedAt(s, inbox, waiting + multiset{x}, open - multiset{x}, ch) {
      assert AccountedAt(s, inbox, waiting, open, ch);
    }
  }

  lemma AccountMerge(s: seq<Chan>, inbox: seq<Chan>, waiting: multiset<Chan>, open: multiset<Chan>)
    requires Accounted(s, inbox, waiting, open)
    ensures Accounted(s + inbox, [], waiting, open)
  {
    assert (s + inbox)[1..] == s[1..] + inbox;
    forall ch ensures AccountedAt(s + inbox, [], waiting, open, ch) {
      assert AccountedAt(s, inbox, waiting, open, ch);
    }
  }

  lemma AccountSwap(s: seq<Chan>, inbox: seq<Chan>, waiting: multiset<Chan>, open: multiset<Chan>, m: nat, i: nat,
                    s': seq<Chan>)
    requires Accounted(s, inbox, waiting, open) && 1 <= i < m <= |s| && s' == Swapped(s, i, m - 1)
    ensures Accounted(s', inbox, waiting, open)
  {
    SwappedCount(s, m, i);
    forall ch ensures AccountedAt(s', inbox, waiting, open, ch) {
      assert AccountedAt(s, inbox, waiting, open, ch);
    }
  }

  // ---- The two accounts together ----

  lemma SendStarts(s: seq<Chan>, waiting: multiset<Chan>)
    requires Headed(s)
    ensures Sending(s, |s|, s, [], multiset{}, multiset{})
    ensures Owed(multiset{}, multiset{}, waiting, waiting, multiset{})
  {
    assert s[|s|..] == [];
  }

  lemma DeliverBoth(s: seq<Chan>, m: nat, start: seq<Chan>, delivered: seq<Chan>, missed: multiset<Chan>,
                    served: multiset<Chan>, i: nat, s': seq<Chan>, delivered': seq<Chan>,
                    inbox: seq<Chan>, waiting: multiset<Chan>, open: multiset<Chan>)
    requires Sending(s, m, start, delivered, missed, served) && Accounted(s, inbox, waiting, open) && 1 <= i < m
    requires s' == Swapped(s, i, m - 1) && delivered' == delivered + [s[i]]
    ensures Sending(s', m - 1, start, delivered', missed, served) && Accounted(s', inbox, waiting, open)
  {
    DeliverStep(s, m, start, delivered, missed, served, i, s', delivered');
    AccountSwap(s, inbox, waiting, open, m, i, s');
  }

  /** A removal, of a case that was still active or had taken the value, as both accounts of a Send see it. */
  lemma RemoveBoth(s: seq<Chan>, m: nat, start: seq<Chan>, delivered: seq<Chan>, missed: multiset<Chan>,
                   served: multiset<Chan>, waiting: multiset<Chan>, before: multiset<Chan>, arrived: multiset<Chan>,
                   i: nat, t: seq<Chan>, m': nat, missed': multiset<Chan>, served': multiset<Chan>)
    requires Sending(s, m, start, delivered, missed, served) && 1 <= i < |s| && t == Without(s, i)
    requires Owed(missed, served, waiting, before, arrived) && s[i] in waiting
    requires if i < m then m' == m - 1 && missed' == missed + multiset{s[i]} && served' == served
             else m' == m && missed' == missed && served' == served + multiset{s[i]}
    ensures Sending(t, m', start, delivered, missed', served')
    ensures Owed(missed', served', waiting - multiset{s[i]}, before, arrived)
  {
    OwedLess(missed, served, waiting, before, arrived, s[i]);
    if i < m {
      RemoveActive(s, m, start, delivered, missed, served, i, t, missed');
    } else {
      RemoveServed(s, m, start, delivered, missed, served, i, t, served');
    }
  }

  /** What the next request needs and leaves. */
  lemma NextRequest(open: multiset<Chan>, requests: seq<Request>, at: nat)
    requires at < |requests| && Legal(open, requests[at..])
    ensures LegalOne(open, requests[at]) && Legal(OpenAfter(open, requests[at]), requests[at + 1..])
    ensures Handled(requests, at + 1) == HandleOne(Handled(requests, at), requests[at])
  {
    assert requests[at..][0] == requests[at] && requests[at..][1..] == requests[at + 1..];
  }

  // ---- The outcome of a Send ----

  /** How the channels `taken` that took a value and the cases `left` afterwards follow from the cases at
      the start and the unsubscriptions `asked`, some of which still wait: nothing is sent twice or
      elsewhere, and only what an unsubscription asked for is missed or removed. */
  ghost predicate Outcome(start: multiset<Chan>, asked: multiset<Chan>, taken: multiset<Chan>, left: multiset<Chan>,
                          waiting: multiset<Chan>) {
    && taken <= start && start + waiting <= taken + asked
    && left + asked == start + waiting
  }

  lemma SendOutcome(s: seq<Chan>, start: seq<Chan>, delivered: seq<Chan>, missed: multiset<Chan>, served: multiset<Chan>,
                    waiting: multiset<Chan>, before: multiset<Chan>, arrived: multiset<Chan>)
    requires Sending(s, 1, start, delivered, missed, served) && Headed(start)
    requires Owed(missed, served, waiting, before, arrived)
    ensures Outcome(multiset(start[1..]), before + arrived, multiset(delivered), multiset(s[1..]), waiting)
  {
    SendEnds(s, start, delivered, missed, served);
    var start0, taken, left := multiset(start[1..]), multiset(delivered), multiset(s[1..]);
    forall ch
      ensures taken[ch] <= start0[ch] && start0[ch] + waiting[ch] <= taken[ch] + before[ch] + arrived[ch]
      ensures left[ch] + before[ch] + arrived[ch] == start0[ch] + waiting[ch]
    {
      assert OwedAt(missed, served, waiting, before, arrived, ch);
      assert (taken + missed)[ch] == start0[ch] && (left + missed + served)[ch] == start0[ch];
    }
  }

  /** A channel that nobody unsubscribes takes the value once for each of its subscriptions, and keeps
      all its cases. */
  lemma Undisturbed(start: multiset<Chan>, asked: multiset<Chan>, taken: multiset<Chan>, left: multiset<Chan>,
                    waiting: multiset<Chan>, ch: Chan)
    requires Outcome(start, asked, taken, left, waiting) && asked[ch] == 0
    ensures taken[ch] == start[ch] == left[ch]
  {
    assert (start + waiting)[ch] <= (taken + asked)[ch];
    assert (left + asked)[ch] == (start + waiting)[ch];
  }

  // ---- The feed ----

  class Feed {
    var cases: array<Chan>         // backing array of the case list, removal case first
    var len: nat                   // length of the case list
    var inbox: seq<Chan>           // subscribed, not yet in the case list
    var removing: multiset<Chan>   // unsubscribing, not found in the inbox, waiting for a Send or the lock
    var taken: seq<Chan>           // the channels that took a value, one entry for each value
    ghost var open: multiset<Chan> // subscribed and not unsubscribed

    ghost predicate Valid()
      reads this, cases
    {
      len <= cases.Length && Accounted(cases[..len], inbox, removing, open)
    }

    constructor ()
      ensures Valid() && open == multiset{} && removing == multiset{} && taken == [] && fresh(cases)
    {
      cases := new Chan[1](_ => REMOVE_SUB);
      len, inbox, removing, taken, open := 1, [], multiset{}, [], multiset{};
      AccountStarts();
      new;
      assert cases[..len] == [REMOVE_SUB];
    }

    method Subscribe(ch: Chan)
      requires Valid() && ch != REMOVE_SUB
      modifies this`inbox, this`open
      ensures Valid() && open == old(open) + multiset{ch} && inbox == old(inbox) + [ch]
    {
      AccountSubscribe(cases[..len], inbox, removing, open, ch);
      inbox := inbox + [ch];
      open := open + multiset{ch};
    }

    /** The first part of an unsubscription: a channel in the inbox is dropped at once, any other waits. */
    method RemoveFromInbox(ch: Chan) returns (done: bool)
      requires Valid() && ch in open
      modifies this`inbox, this`removing, this`open
      ensures Valid() && open == old(open) - multiset{ch}
      ensures (done <==> ch in old(inbox)) && inbox == Dropped(old(inbox), ch)
      ensures removing == if done then old(removing) else old(removing) + multiset{ch}
    {
      var index := Find(inbox, ch);
      if index != -1 {
        AccountDropInbox(cases[..len], inbox, removing, open, index);
        inbox := Without(inbox, index);
        open := open - multiset{ch};
        return true;
      }
      AccountWait(cases[..len], inbox, removing, open, ch);
      removing := removing + multiset{ch};
      open := open - multiset{ch};
      done := false;
    }

    /** The case list loses a channel that waits for removal; it is always there to be found. */
    method DropCase(ch: Chan) returns (index: nat)
      requires Valid() && ch in removing
      modifies this`len, this`removing, cases
      ensures Valid() && 1 <= index < old(len) && old(cases[..len])[index] == ch
      ensures cases[..len] == Without(old(cases[..len]), index)
      ensures removing == old(removing) - multiset{ch}
    {
      ghost var s := cases[..len];
      WaitingHasCase(s, inbox, removing, open, ch);
      var i := Find(cases[..len], ch);
      ghost var waiting := removing;
      len, removing := len - 1, removing - multiset{ch};
      Delete(cases, len + 1, i);
      AccountDropCase(s, inbox, waiting, open, i, cases[..len]);
      index := i;
    }

    /** Other goroutines run for a while, without the send lock: some more of their requests arrive, from
        `at` on. */
    method Interfere(requests: seq<Request>, at: nat, ghost missed: multiset<Chan>, ghost served: multiset<Chan>,
                     ghost before: multiset<Chan>)
      returns (at': nat)
      requires Valid() && at <= |requests| && Legal(open, requests[at..]) && inbox == Handled(requests, at).inbox
      requires Owed(missed, served, removing, before, Handled(requests, at).waits)
      modifies this`inbox, this`removing, this`open
      ensures Valid() && at <= at' <= |requests| && Legal(open, requests[at'..]) && inbox == Handled(requests, at').inbox
      ensures Owed(missed, served, removing, before, Handled(requests, at').waits)
    {
      var until: nat :| at <= until <= |requests|;
      at' := at;
      while at' < until
        invariant Valid() && at <= at' <= until
        invariant Legal(open, requests[at'..]) && inbox == Handled(requests, at').inbox
        invariant Owed(missed, served, removing, before, Handled(requests, at').waits)
      {
        at' := Serve(requests, at', missed, served, before);
      }
    }

    /** The next request arrives. */
    method Serve(requests: seq<Request>, at: nat, ghost missed: multiset<Chan>, ghost served: multiset<Chan>,
                 ghost before: multiset<Chan>)
      returns (at': nat)
      requires Valid() && at < |requests| && Legal(open, requests[at..]) && inbox == Handled(requests, at).inbox
      requires Owed(missed, served, removing, before, Handled(requests, at).waits)
      modifies this`inbox, this`removing, this`open
      ensures Valid() && at' == at + 1 && Legal(open, requests[at'..]) && inbox == Handled(requests, at').inbox
      ensures Owed(missed, served, removing, before, Handled(requests, at').waits)
    {
      NextRequest(open, requests, at);
      match requests[at] {
        case Subscribe(ch) =>
          Subscribe(ch);
        case Unsubscribe(ch) =>
          OwedMore(missed, served, removing, before, Handled(requests, at).waits, ch);
          var done := RemoveFromInbox(ch);
      }
      at' := at + 1;
    }

    /** Append the inbox to the case list, which nobody else refers to. */
    method MergeInbox()
      requires Valid()
      modifies this`cases, this`len, this`inbox
      ensures Valid() && fresh(cases) && cases[..len] == old(cases[..len]) + old(inbox) && inbox == []
    {
      var merged := cases[..len] + inbox;
      AccountMerge(cases[..len], inbox, removing, open);
      var grown := new Chan[|merged|];
      for i := 0 to |merged|
        modifies grown
        invariant grown[..i] == merged[..i]
      {
        grown[i] := merged[i];
      }
      assert grown[..|merged|] == merged;
      cases, len, inbox := grown, |merged|, [];
    }

    /** The case at `i` takes the value and becomes inactive. `base` values were taken before this Send. */
    method Deliver(active: nat, i: nat, ghost base: nat, ghost start: seq<Chan>,
                   ghost missed: multiset<Chan>, ghost served: multiset<Chan>)
      returns (m: nat)
      requires Valid() && 1 <= i < active && base <= |taken|
      requires Sending(cases[..len], active, start, taken[base..], missed, served)
      modifies this`taken, cases
      ensures m == active - 1 && taken == old(taken) + [old(cases[..len])[i]]
      ensures Valid() && Sending(cases[..len], m, start, taken[base..], missed, served)
    {
      ghost var s := cases[..len];
      ghost var earlier := taken[base..];
      taken := taken + [cases[i]];
      m := Deactivate(cases, len, active, i);
      ghost var s', now := cases[..len], taken[base..];
      assert now == earlier + [s[i]];
      DeliverBoth(s, active, start, earlier, missed, served, i, s', now, inbox, removing, open);
      assert Sending(s', m, start, now, missed, served);
    }

    /** Offer the value to every active case without blocking; each may take it or not. */
    method TryActive(active: nat, requests: seq<Request>, at0: nat, ghost before: multiset<Chan>, ghost base: nat,
                     ghost start: seq<Chan>, ghost missed: multiset<Chan>, ghost served: multiset<Chan>)
      returns (m: nat, sent: nat, at: nat)
      requires Valid() && base <= |taken| && Sending(cases[..len], active, start, taken[base..], missed, served)
      requires at0 <= |requests| && Legal(open, requests[at0..]) && inbox == Handled(requests, at0).inbox
      requires Owed(missed, served, removing, before, Handled(requests, at0).waits)
      modifies this`taken, this`inbox, this`removing, this`open, cases
      ensures Valid() && old(taken) <= taken && Sending(cases[..len], m, start, taken[base..], missed, served)
      ensures m <= active && |taken| == |old(taken)| + sent
      ensures at0 <= at <= |requests| && Legal(open, requests[at..]) && inbox == Handled(requests, at).inbox
      ensures Owed(missed, served, removing, before, Handled(requests, at).waits)
    {
      m, sent, at := active, 0, at0;
      var i := 1;
      while i < m
        invariant 1 <= i <= m <= active && old(taken) <= taken && |taken| == |old(taken)| + sent
        invariant Valid() && Sending(cases[..len], m, start, taken[base..], missed, served)
        invariant at0 <= at <= |requests| && Legal(open, requests[at..]) && inbox == Handled(requests, at).inbox
        invariant Owed(missed, served, removing, before, Handled(requests, at).waits)
        decreases m - i
      {
        at := Interfere(requests, at, missed, served, before);
        var takes: bool := *;
        if takes {
          m := Deliver(m, i, base, start, missed, served);
          sent := sent + 1;
        } else {
          i := i + 1;
        }
      }
    }

    /** A waiting channel is taken out of the list in the middle of a Send. */
    method Remove(active: nat, ghost start: seq<Chan>, ghost delivered: seq<Chan>,
                  ghost before: multiset<Chan>, ghost arrived: multiset<Chan>,
                  ghost missed0: multiset<Chan>, ghost served0: multiset<Chan>)
      returns (m: nat, ghost missed: multiset<Chan>, ghost served: multiset<Chan>)
      requires Valid() && removing != multiset{} && Sending(cases[..len], active, start, delivered, missed0, served0)
      requires Owed(missed0, served0, removing, before, arrived)
      modifies this`len, this`removing, cases
      ensures Valid() && Sending(cases[..len], m, start, delivered, missed, served)
      ensures m <= active && len == old(len) - 1 && removing < old(removing)
      ensures Owed(missed, served, removing, before, arrived)
    {
      var ch :| ch in removing;
      ghost var s, waiting := cases[..len], removing;
      var index := DropCase(ch);
      m, missed, served := active, missed0, served0;
      if index < active {
        m, missed := active - 1, missed0 + multiset{ch};
      } else {
        served := served0 + multiset{ch};
      }
      ghost var s' := cases[..len];
      RemoveBoth(s, active, start, delivered, missed0, served0, waiting, before, arrived, index, s', m, missed, served);
    }

    /** Wait until one of the active cases takes the value or a removal comes in, and act on it. */
    method Select(active: nat, ghost before: multiset<Chan>, ghost arrived: multiset<Chan>, ghost base: nat,
                  ghost start: seq<Chan>, ghost missed0: multiset<Chan>, ghost served0: multiset<Chan>)
      returns (m: nat, sent: nat, ghost missed: multiset<Chan>, ghost served: multiset<Chan>)
      requires Valid() && active > 1 && base <= |taken| && Owed(missed0, served0, removing, before, arrived)
      requires Sending(cases[..len], active, start, taken[base..], missed0, served0)
      modifies this`len, this`removing, this`taken, cases
      ensures Valid() && old(taken) <= taken && |taken| == |old(taken)| + sent
      ensures Sending(cases[..len], m, start, taken[base..], missed, served)
      ensures m <= active && Owed(missed, served, removing, before, arrived)
      ensures if sent == 0 then len == old(len) - 1 && removing < old(removing)
              else sent == 1 && m == active - 1 && len == old(len) && removing == old(removing)
    {
      var chosen: nat :| chosen < active && (chosen == 0 ==> removing != multiset{});
      sent, missed, served := 0, missed0, served0;
      if chosen == 0 {
        m, missed, served := Remove(active, start, taken[base..], before, arrived, missed0, served0);
      } else {
        m := Deliver(active, chosen, base, start, missed0, served0);
        sent := 1;
      }
    }

    /** One round of a Send: wait for an active case or a removal, then offer the value to the active cases
        again. */
    method Round(active: nat, requests: seq<Request>, at0: nat, ghost before: multiset<Chan>, ghost base: nat,
                 ghost start: seq<Chan>, ghost missed0: multiset<Chan>, ghost served0: multiset<Chan>)
      returns (m: nat, sent: nat, at: nat, ghost missed: multiset<Chan>, ghost served: multiset<Chan>)
      requires Valid() && active > 1 && base <= |taken|
      requires Sending(cases[..len], active, start, taken[base..], missed0, served0)
      requires at0 <= |requests| && Legal(open, requests[at0..]) && inbox == Handled(requests, at0).inbox
      requires Owed(missed0, served0, removing, before, Handled(requests, at0).waits)
      modifies this`len, this`taken, this`inbox, this`removing, this`open, cases
      ensures Valid() && old(taken) <= taken && |taken| == |old(taken)| + sent
      ensures Sending(cases[..len], m, start, taken[base..], missed, served) && len + m < old(len) + active
      ensures at0 <= at <= |requests| && Legal(open, requests[at..]) && inbox == Handled(requests, at).inbox
      ensures Owed(missed, served, removing, before, Handled(requests, at).waits)
    {
      at := Interfere(requests, at0, missed0, served0, before);
      var one, more;
      m, one, missed, served := Select(active, before, Handled(requests, at).waits, base, start, missed0, served0);
      m, more, at := TryActive(m, requests, at, before, base, start, missed, served);
      sent := one + more;
    }

    /** The loop of a Send: offer the value to all active cases, then wait for one of them or a removal,
        until no case is active. */
    method SendLoop(requests: seq<Request>, ghost start: seq<Chan>, ghost base: nat, ghost before: multiset<Chan>)
      returns (nsent: nat, at: nat, ghost missed: multiset<Chan>, ghost served: multiset<Chan>)
      requires Valid() && start == cases[..len] && base == |taken| && before == removing
      requires Legal(open, requests) && inbox == []
      modifies this`len, this`taken, this`inbox, this`removing, this`open, cases
      ensures Valid() && old(taken) <= taken && |taken| == |old(taken)| + nsent
      ensures Sending(cases[..len], 1, start, taken[base..], missed, served)
      ensures at <= |requests| && inbox == Handled(requests, at).inbox
      ensures Owed(missed, served, removing, before, Handled(requests, at).waits)
    {
      nsent, at, missed, served := 0, 0, multiset{}, multiset{};
      var active, sent := len, 0;
      assert requests[0..] == requests && taken[base..] == [];
      SendStarts(start, before);
      active, sent, at := TryActive(active, requests, at, before, base, start, missed, served);
      nsent := nsent + sent;
      while active != 1
        invariant Valid() && old(taken) <= taken && |taken| == |old(taken)| + nsent
        invariant Sending(cases[..len], active, start, taken[base..], missed, served)
        invariant at <= |requests| && Legal(open, requests[at..]) && inbox == Handled(requests, at).inbox
        invariant Owed(missed, served, removing, before, Handled(requests, at).waits)
        decreases len + active
      {
        active, sent, at, missed, served := Round(active, requests, at, before, base, start, missed, served);
        nsent := nsent + sent;
      }
    }

    /** Deliver a value to every subscription there is now, while other goroutines make `requests`, of which
        the first `at` arrive before it returns. Returns how many channels took the value. */
    method Send(requests: seq<Request>) returns (nsent: nat, at: nat)
      requires Valid() && Legal(open, requests)
      modifies this, cases
      ensures Valid() && old(taken) <= taken && nsent == |taken| - |old(taken)|
      ensures at <= |requests| && inbox == Handled(requests, at).inbox
      ensures Outcome(multiset(old(cases[..len] + inbox)[1..]), old(removing) + Handled(requests, at).waits,
                      multiset(taken[|old(taken)|..]), multiset(cases[..len][1..]), removing)
      ensures forall ch :: old(removing)[ch] == 0 && Unsubscribe(ch) !in requests[..at] ==>
        multiset(taken[|old(taken)|..])[ch] == multiset(old(cases[..len] + inbox)[1..])[ch]
          == multiset(cases[..len][1..])[ch]
    {
      MergeInbox();
      ghost var start, base, before := cases[..len], |taken|, removing;
      ghost var missed, served;
      nsent, at, missed, served := SendLoop(requests, start, base, before);
      ghost var asked := before + Handled(requests, at).waits;
      SendOutcome(cases[..len], start, taken[base..], missed, served, removing, before, Handled(requests, at).waits);
      forall ch | before[ch] == 0 && Unsubscribe(ch) !in requests[..at]
        ensures multiset(taken[base..])[ch] == multiset(start[1..])[ch] == multiset(cases[..len][1..])[ch]
      {
        WaitsRequested(requests, at, ch);
        Undisturbed(multiset(start[1..]), asked, multiset(taken[base..]), multiset(cases[..len][1..]), removing, ch);
      }
    }
  }
}
