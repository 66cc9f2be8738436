/**
 Channels and their registration with epoll. A channel carries the events it is interested in and
 the state of its registration; the poller keeps a table of channels by descriptor and drives the
 kernel's interest set.
 */
module Poller {
  import opened Wrappers

  type ChannelId = nat

  datatype Flag = In | Pri | Out

  const READ_EVENT: set<Flag> := {In, Pri}
  const WRITE_EVENT: set<Flag> := {Out}

  /** `kNew`, `kAdded`, `kDeleted`. */
  datatype Index = Unregistered | Added | Deleted

  datatype Channel = Channel(fd: int, events: set<Flag>, index: Index)

  /** An entry of the interest set: the mask, and the channel that `data.ptr` points to. */
  datatype Entry = Entry(events: set<Flag>, channel: ChannelId)

  /** `legal` records that no `epoll_ctl` call so far has failed. */
  datatype Registry = Registry(
    channels: map<ChannelId, Channel>, table: map<int, ChannelId>, kernel: map<int, Entry>, legal: bool)

  const New: Registry := Registry(map[], map[], map[], true)

  // ---------------------------------------------------------------- epoll_ctl

  datatype Ctl = Add | Mod | Del

  /** ADD fails on a descriptor that is present, MOD and DEL on one that is absent. */
  function EpollCtl(r: Registry, op: Ctl, c: ChannelId): Registry
    requires c in r.channels
  {
    var fd := r.channels[c].fd;
    if (op == Add) == (fd in r.kernel) then r.(legal := false)
    else if op == Del then r.(kernel := r.kernel - {fd})
    else r.(kernel := r.kernel[fd := Entry(r.channels[c].events, c)])
  }

  function SetIndex(r: Registry, c: ChannelId, i: Index): Registry
    requires c in r.channels
  {
    r.(channels := r.channels[c := r.channels[c].(index := i)])
  }

  /** `EPollPoller::updateChannel`. */
  function Update(r: Registry, c: ChannelId): Registry
    requires c in r.channels
  {
    var ch := r.channels[c];
    match ch.index
    case Added =>
      if ch.events == {} then SetIndex(EpollCtl(r, Del, c), c, Deleted) else EpollCtl(r, Mod, c)
    case Unregistered => EpollCtl(SetIndex(r.(table := r.table[ch.fd := c]), c, Added), Add, c)
    case Deleted => EpollCtl(SetIndex(r, c, Added), Add, c)
  }

  /** `EPollPoller::removeChannel`. */
  function Remove(r: Registry, c: ChannelId): Registry
    requires c in r.channels
  {
    var r1 := r.(table := r.table - {r.channels[c].fd});
    var r2 := if r.channels[c].index == Added then EpollCtl(r1, Del, c) else r1;
    SetIndex(r2, c, Unregistered)
  }

  /** `events_ |= mask` or `events_ &= ~mask`, followed by `update()`. */
  function SetEvents(r: Registry, c: ChannelId, events: set<Flag>): Registry
    requires c in r.channels
  {
    Update(r.(channels := r.channels[c := r.channels[c].(events := events)]), c)
  }

  datatype Event =
    | Create(c: ChannelId, fd: int)
    | Enable(c: ChannelId, mask: set<Flag>)
    | Disable(c: ChannelId, mask: set<Flag>)
    | DisableAll(c: ChannelId)
    | RemoveChannel(c: ChannelId)
    | Destroy(c: ChannelId)

  /** A channel is destroyed only after it was removed; its name and its descriptor may then be used again. */
  predicate Possible(r: Registry, e: Event) {
    match e
    case Create(c, _) => c !in r.channels
    case Enable(c, mask) => c in r.channels && mask in {READ_EVENT, WRITE_EVENT}
    case Disable(c, mask) => c in r.channels && mask in {READ_EVENT, WRITE_EVENT}
    case DisableAll(c) => c in r.channels
    case RemoveChannel(c) => c in r.channels
    case Destroy(c) => c in r.channels && r.channels[c].index == Unregistered
  }

  function Step(r: Registry, e: Event): Registry
    requires Possible(r, e)
  {
    match e
    case Create(c, fd) => r.(channels := r.channels[c := Channel(fd, {}, Unregistered)])
    case Enable(c, mask) => SetEvents(r, c, r.channels[c].events + mask)
    case Disable(c, mask) => SetEvents(r, c, r.channels[c].events - mask)
    case DisableAll(c) => SetEvents(r, c, {})
    case RemoveChannel(c) => Remove(r, c)
    case Destroy(c) => r.(channels := r.channels - {c})
  }

  // ---------------------------------------------------------------- the mirror

  /** The kernel holds exactly the channels marked as added, with their masks. */
  ghost predicate Mirror(r: Registry) {
    && (forall c :: c in r.channels && r.channels[c].index == Added ==>
          r.channels[c].fd in r.kernel && r.kernel[r.channels[c].fd] == Entry(r.channels[c].events, c))
    && (forall fd :: fd in r.kernel ==>
          var c := r.kernel[fd].channel;
          c in r.channels && r.channels[c].fd == fd && r.channels[c].index == Added)
    && (forall c :: c in r.channels && r.channels[c].index == Deleted ==> r.channels[c].events == {})
  }

  ghost predicate DistinctFds(r: Registry) {
    forall c, d :: c in r.channels && d in r.channels && c != d ==> r.channels[c].fd != r.channels[d].fd
  }

  /** The table holds exactly the channels that are not new. */
  ghost predicate TableOk(r: Registry) {
    && (forall c :: c in r.channels ==>
          (r.channels[c].index != Unregistered <==> r.channels[c].fd in r.table && r.table[r.channels[c].fd] == c))
    && (forall fd :: fd in r.table ==> r.table[fd] in r.channels && r.channels[r.table[fd]].fd == fd)
  }

  ghost predicate Inv(r: Registry) {
    Mirror(r) && DistinctFds(r) && TableOk(r) && r.legal
  }

  /** Another channel on the same descriptor holds the kernel's entry. */
  ghost predicate Occupied(r: Registry, c: ChannelId)
    requires c in r.channels
  {
    exists d :: d in r.channels && d != c && r.channels[d].fd == r.channels[c].fd && r.channels[d].index == Added
  }

  /**
   From a faithful mirror, changing a channel's events is legal exactly when the channel is already
   registered or no other channel occupies its descriptor, and then the mirror stays faithful.
   */
  lemma SetEventsLegalIff(r: Registry, c: ChannelId, events: set<Flag>)
    requires Mirror(r) && r.legal && c in r.channels
    ensures var t := SetEvents(r, c, events);
            && (t.legal <==> r.channels[c].index == Added || !Occupied(r, c))
            && (t.legal ==> Mirror(t))
  {
    var fd := r.channels[c].fd;
    if r.channels[c].index != Added && fd in r.kernel {
      var d := r.kernel[fd].channel;
      assert d != c;
      assert Occupied(r, c);
    }
  }

  /** Without distinct descriptors the promise fails: two channels on one fd, the second ADD is refused. */
  lemma SharedDescriptorRefused(fd: int)
    ensures var r := Step(Step(Step(New, Create(1, fd)), Create(2, fd)), Enable(1, READ_EVENT));
            r.legal && !Step(r, Enable(2, READ_EVENT)).legal
  {
    var r0 := Step(New, Create(1, fd));
    var r1 := Step(r0, Create(2, fd));
    var r2 := Step(r1, Enable(1, READ_EVENT));
    assert fd in r2.kernel;
  }

  /** A channel ends up in the interest set with an empty mask exactly when it was idle and stays idle. */
  lemma EmptyMaskIff(r: Registry, c: ChannelId, events: set<Flag>)
    requires Inv(r) && c in r.channels
    ensures var t := SetEvents(r, c, events);
            t.channels[c].fd in t.kernel && t.kernel[t.channels[c].fd].events == {}
            <==> r.channels[c].index != Added && events == {}
  {
    SetEventsLegalIff(r, c, events);
    assert !Occupied(r, c);
  }

  /** Changing events touches one channel's mask and index, and enters a new channel in the table. */
  lemma SetEventsShape(r: Registry, c: ChannelId, events: set<Flag>)
    requires c in r.channels
    ensures var t, ch := SetEvents(r, c, events), r.channels[c];
            && c in t.channels && t.channels[c].index != Unregistered
            && t.channels == r.channels[c := Channel(ch.fd, events, t.channels[c].index)]
            && t.table == if ch.index == Unregistered then r.table[ch.fd := c] else r.table
  {
    hide EpollCtl;
    var r1 := r.(channels := r.channels[c := r.channels[c].(events := events)]);
    var r2 := SetIndex(r1.(table := r1.table[r1.channels[c].fd := c]), c, Added);
    CtlShape(r1, Del, c);
    CtlShape(r1, Mod, c);
    CtlShape(r2, Add, c);
    CtlShape(SetIndex(r1, c, Added), Add, c);
  }

  lemma CtlShape(r: Registry, op: Ctl, c: ChannelId)
    requires c in r.channels
    ensures EpollCtl(r, op, c).channels == r.channels && EpollCtl(r, op, c).table == r.table
  {
  }

  lemma SetEventsTable(r: Registry, c: ChannelId, events: set<Flag>)
    requires DistinctFds(r) && TableOk(r) && c in r.channels
    ensures DistinctFds(SetEvents(r, c, events)) && TableOk(SetEvents(r, c, events))
  {
    hide SetEvents;
    SetEventsShape(r, c, events);
  }

  lemma SetEventsKeeps(r: Registry, c: ChannelId, events: set<Flag>)
    requires Inv(r) && c in r.channels
    ensures Inv(SetEvents(r, c, events))
  {
    hide Mirror, TableOk, SetEvents;
    SetEventsLegalIff(r, c, events);
    assert !Occupied(r, c);
    SetEventsTable(r, c, events);
  }

  lemma RemoveKeeps(r: Registry, c: ChannelId)
    requires Inv(r) && c in r.channels
    ensures Inv(Remove(r, c))
  {
  }

  /** The one demand on users: channels that exist at the same time have distinct descriptors. */
  ghost predicate FreshFd(r: Registry, e: Event) {
    e.Create? ==> forall c :: c in r.channels ==> r.channels[c].fd != e.fd
  }

  lemma StepKeeps(r: Registry, e: Event)
    requires Inv(r) && Possible(r, e) && FreshFd(r, e)
    ensures Inv(Step(r, e))
  {
    match e
    case Create(c, fd) => CreateKeeps(r, c, fd);
    case Enable(c, mask) => SetEventsKeeps(r, c, r.channels[c].events + mask);
    case Disable(c, mask) => SetEventsKeeps(r, c, r.channels[c].events - mask);
    case DisableAll(c) => SetEventsKeeps(r, c, {});
    case RemoveChannel(c) => RemoveKeeps(r, c);
    case Destroy(c) =>
  }

  lemma CreateKeeps(r: Registry, c: ChannelId, fd: int)
    requires Inv(r) && c !in r.channels && forall d :: d in r.channels ==> r.channels[d].fd != fd
    ensures Inv(Step(r, Create(c, fd)))
  {
  }

  // ---------------------------------------------------------------- every sequence of calls

  /** Any sequence of calls, with whatever descriptors. */
  ghost predicate Trace(rs: seq<Registry>, es: seq<Event>) {
    && |rs| == |es| + 1 && rs[0] == New
    && forall i :: 0 <= i < |es| ==> Possible(rs[i], es[i]) && rs[i + 1] == Step(rs[i], es[i])
  }

  /** A sequence of calls in which channels that exist together have distinct descriptors. */
  ghost predicate Run(rs: seq<Registry>, es: seq<Event>) {
    Trace(rs, es) && forall i :: 0 <= i < |es| ==> FreshFd(rs[i], es[i])
  }

  /** The call does not register a channel on a descriptor that another one occupies. */
  ghost predicate Unopposed(r: Registry, e: Event)
    requires Possible(r, e)
  {
    e.Enable? || e.Disable? || e.DisableAll? ==> r.channels[e.c].index == Added || !Occupied(r, e.c)
  }

  lemma StepLegalIff(r: Registry, e: Event)
    requires Mirror(r) && r.legal && Possible(r, e)
    ensures Step(r, e).legal <==> Unopposed(r, e)
    ensures Step(r, e).legal ==> Mirror(Step(r, e))
  {
    hide SetEvents, Occupied;
    match e
    case Enable(c, mask) => SetEventsLegalIff(r, c, r.channels[c].events + mask);
    case Disable(c, mask) => SetEventsLegalIff(r, c, r.channels[c].events - mask);
    case DisableAll(c) => SetEventsLegalIff(r, c, {});
    case _ =>
  }

  lemma IllegalStays(r: Registry, e: Event)
    requires !r.legal && Possible(r, e)
    ensures !Step(r, e).legal
  {
  }

  /** Every `epoll_ctl` so far was legal if and only if no call registered a channel on an occupied descriptor. */
  lemma {:induction false} LegalIff(rs: seq<Registry>, es: seq<Event>, k: nat)
    requires Trace(rs, es) && k <= |es|
    ensures rs[k].legal <==> forall i :: 0 <= i < k ==> Unopposed(rs[i], es[i])
    ensures rs[k].legal ==> Mirror(rs[k])
  {
    hide Step, Possible, Unopposed, Mirror;
    if k == 0 {
      NewKeeps();
      InvMirror(New);
    } else {
      LegalIff(rs, es, k - 1);
      if rs[k - 1].legal {
        StepLegalIff(rs[k - 1], es[k - 1]);
      } else {
        IllegalStays(rs[k - 1], es[k - 1]);
      }
    }
  }

  lemma InvMirror(r: Registry)
    requires Inv(r)
    ensures Mirror(r)
  {
  }

  lemma {:induction false} RunKeeps(rs: seq<Registry>, es: seq<Event>, k: nat)
    requires Run(rs, es) && k < |rs|
    ensures Inv(rs[k])
  {
    hide Step, Possible, FreshFd, Inv;
    if k == 0 {
      NewKeeps();
    } else {
      RunKeeps(rs, es, k - 1);
      StepKeeps(rs[k - 1], es[k - 1]);
    }
  }

  lemma NewKeeps()
    ensures Inv(New)
  {
  }

  /** A channel told to watch `events`: it is registered, unless it was and now watches nothing. */
  function Told(ch: Channel, events: set<Flag>): Channel {
    Channel(ch.fd, events, if ch.index == Added && events == {} then Deleted else Added)
  }

  /** What the calls so far have made of channel `c`, without looking at poller or kernel. */
  function ChannelAfter(es: seq<Event>, k: nat, c: ChannelId): Option<Channel>
    requires k <= |es|
  {
    if k == 0 then None
    else
      var before := ChannelAfter(es, k - 1, c);
      var e := es[k - 1];
      if e.c != c then before
      else if e.Create? then Some(Channel(e.fd, {}, Unregistered))
      else if e.Destroy? || before.None? then None
      else
        var ch := before.value;
        match e
        case Enable(_, mask) => Some(Told(ch, ch.events + mask))
        case Disable(_, mask) => Some(Told(ch, ch.events - mask))
        case DisableAll(_) => Some(Told(ch, {}))
        case _ => Some(ch.(index := Unregistered))
  }

  lemma StepChannel(r: Registry, e: Event, c: ChannelId)
    requires Possible(r, e)
    ensures var t := Step(r, e);
            && (c != e.c ==> (c in t.channels <==> c in r.channels) && (c in r.channels ==> t.channels[c] == r.channels[c]))
            && (match e
                case Create(d, fd) => d in t.channels && t.channels[d] == Channel(fd, {}, Unregistered)
                case Enable(d, mask) => d in t.channels && t.channels[d] == Told(r.channels[d], r.channels[d].events + mask)
                case Disable(d, mask) => d in t.channels && t.channels[d] == Told(r.channels[d], r.channels[d].events - mask)
                case DisableAll(d) => d in t.channels && t.channels[d] == Told(r.channels[d], {})
                case RemoveChannel(d) => d in t.channels && t.channels[d] == r.channels[d].(index := Unregistered)
                case Destroy(d) => d !in t.channels)
  {
    hide SetEvents, Remove;
    match e
    case Enable(d, mask) => SetEventsTold(r, d, r.channels[d].events + mask);
    case Disable(d, mask) => SetEventsTold(r, d, r.channels[d].events - mask);
    case DisableAll(d) => SetEventsTold(r, d, {});
    case RemoveChannel(d) => RemoveShape(r, d);
    case _ =>
  }

  lemma SetEventsTold(r: Registry, c: ChannelId, events: set<Flag>)
    requires c in r.channels
    ensures SetEvents(r, c, events).channels == r.channels[c := Told(r.channels[c], events)]
  {
    hide EpollCtl;
    SetEventsShape(r, c, events);
    var r1 := r.(channels := r.channels[c := r.channels[c].(events := events)]);
    CtlShape(r1, Del, c);
    CtlShape(r1, Mod, c);
    CtlShape(SetIndex(r1.(table := r1.table[r1.channels[c].fd := c]), c, Added), Add, c);
    CtlShape(SetIndex(r1, c, Added), Add, c);
  }

  /** In every sequence of calls each channel has exactly the descriptor, mask and state that the calls gave it. */
  lemma {:induction false} ChannelIsHistory(rs: seq<Registry>, es: seq<Event>, k: nat, c: ChannelId)
    requires Trace(rs, es) && k <= |es|
    ensures c in rs[k].channels <==> ChannelAfter(es, k, c).Some?
    ensures c in rs[k].channels ==> rs[k].channels[c] == ChannelAfter(es, k, c).value
  {
    hide Step, Told;
    if k == 0 {
    } else {
      ChannelIsHistory(rs, es, k - 1, c);
      StepChannel(rs[k - 1], es[k - 1], c);
      assert Possible(rs[k - 1], es[k - 1]);
    }
  }

  /** In every run each `epoll_ctl` is legal and the kernel mirrors the channels. */
  lemma KernelMirrorsChannels(rs: seq<Registry>, es: seq<Event>, k: nat, c: ChannelId)
    requires Run(rs, es) && k < |rs| && c in rs[k].channels
    ensures rs[k].legal
    ensures var r, ch := rs[k], rs[k].channels[c];
            && (ch.index == Added <==> ch.fd in r.kernel)
            && (ch.index == Added ==> r.kernel[ch.fd] == Entry(ch.events, c))
            && (ch.index == Deleted ==> ch.events == {})
            && (ch.index == Unregistered <==> ch.fd !in r.table)
  {
    RunKeeps(rs, es, k);
  }

  /**
   A descriptor serves one channel after another: when its channel is removed and destroyed, a new
   channel on the same number can be created and registered like the first.
   */
  lemma DescriptorReused(r: Registry, c: ChannelId, d: ChannelId, mask: set<Flag>)
    requires Inv(r) && c in r.channels && (d == c || d !in r.channels) && mask in {READ_EVENT, WRITE_EVENT}
    ensures var fd := r.channels[c].fd;
            var gone := Step(Remove(r, c), Destroy(c));
            && Possible(gone, Create(d, fd)) && FreshFd(gone, Create(d, fd))
            && var t := Step(Step(gone, Create(d, fd)), Enable(d, mask));
               t.legal && fd in t.kernel && t.kernel[fd] == Entry(mask, d)
  {
    hide Remove, SetEvents, TableOk;
    var fd := r.channels[c].fd;
    var removed := Remove(r, c);
    RemoveShape(r, c);
    RemoveKeeps(r, c);
    var gone := Step(removed, Destroy(c));
    StepKeeps(removed, Destroy(c));
    var made := Step(gone, Create(d, fd));
    CreateKeeps(gone, d, fd);
    assert made.channels[d].events + mask == mask;
    SetEventsKeeps(made, d, mask);
    EnableRegisters(made, d, mask);
  }

  lemma RemoveShape(r: Registry, c: ChannelId)
    requires c in r.channels
    ensures Remove(r, c).channels == r.channels[c := r.channels[c].(index := Unregistered)]
  {
  }

  /** A channel that is not registered, told to watch something, is in the interest set with that mask. */
  lemma EnableRegisters(r: Registry, c: ChannelId, events: set<Flag>)
    requires c in r.channels && r.channels[c].index != Added && SetEvents(r, c, events).legal
    ensures var fd, t := r.channels[c].fd, SetEvents(r, c, events);
            fd in t.kernel && t.kernel[fd] == Entry(events, c)
  {
  }

}

/** The poller object, updating its table, the channels and the kernel's set in place. */
module EPollPoller {
  import opened Poller

  class EPollPoller {
    var channels: map<ChannelId, Channel>
    var table: map<int, ChannelId>
    var kernel: map<int, Entry>
    var legal: bool

    ghost function View(): Registry
      reads this
    {
      Registry(channels, table, kernel, legal)
    }

    constructor ()
      ensures View() == New && Inv(View())
    {
      channels, table, kernel, legal := map[], map[], map[], true;
    }

    method Control(op: Ctl, c: ChannelId)
      requires c in channels
      modifies `kernel, `legal
      ensures View() == EpollCtl(old(View()), op, c)
      ensures legal <==> old(legal) && (op == Add <==> channels[c].fd !in old(kernel))
      ensures legal ==> (channels[c].fd in kernel <==> op != Del)
      ensures forall fd :: fd != channels[c].fd ==> (fd in kernel <==> fd in old(kernel))
    {
      var fd := channels[c].fd;
      if (op == Add) == (fd in kernel) {
        legal := false;
      } else if op == Del {
        kernel := kernel - {fd};
      } else {
        kernel := kernel[fd := Entry(channels[c].events, c)];
      }
    }

    method UpdateChannel(c: ChannelId)
      requires c in channels
      modifies this
      ensures View() == Update(old(View()), c)
    {
      var index := channels[c].index;
      if index == Unregistered || index == Deleted {
        if index == Unregistered {
          table := table[channels[c].fd := c];
        }
        channels := channels[c := channels[c].(index := Added)];
        Control(Add, c);
      } else if channels[c].events == {} {
        Control(Del, c);
        channels := channels[c := channels[c].(index := Deleted)];
      } else {
        Control(Mod, c);
      }
    }

    method RemoveChannel(c: ChannelId)
      requires c in channels
      modifies this
      ensures View() == Remove(old(View()), c)
      ensures old(Inv(View())) ==> Inv(View())
    {
      if Inv(View()) { RemoveKeeps(View(), c); }
      table := table - {channels[c].fd};
      if channels[c].index == Added {
        Control(Del, c);
      }
      channels := channels[c := channels[c].(index := Unregistered)];
    }

    method EnableEvents(c: ChannelId, mask: set<Flag>)
      requires c in channels
      modifies this
      ensures View() == SetEvents(old(View()), c, old(channels[c].events) + mask)
      ensures old(Inv(View())) ==> Inv(View())
    {
      if Inv(View()) { SetEventsKeeps(View(), c, channels[c].events + mask); }
      channels := channels[c := channels[c].(events := channels[c].events + mask)];
      UpdateChannel(c);
    }

    method DisableEvents(c: ChannelId, mask: set<Flag>)
      requires c in channels
      modifies this
      ensures View() == SetEvents(old(View()), c, old(channels[c].events) - mask)
      ensures old(Inv(View())) ==> Inv(View())
    {
      if Inv(View()) { SetEventsKeeps(View(), c, channels[c].events - mask); }
      channels := channels[c := channels[c].(events := channels[c].events - mask)];
      UpdateChannel(c);
    }
  }

}
