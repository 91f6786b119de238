/** Reference-counted descriptors: soc::Socket in scaling/src/Socket.cpp and net::sync_socket in
    proj1/socket.cpp. In both, a handle points at a count shared by all handles on its descriptor;
    a sync_socket's `_conn` is true exactly when it points at one. */
module HandleTable {
  import opened Bytes

  /** What a live handle holds: nothing, or a descriptor and the cell of its count. */
  datatype Slot<C> = Off | On(fd: int, count: C)

  /** The live handles, the allocated counts, the open descriptors and the `close` calls made. A
      descriptor number stands for one opening; it is not used again. */
  datatype Table<H, C> = Table(handles: map<H, Slot<C>>, counts: map<C, int>, open: set<int>, closed: seq<int>)

  ghost function Sharers<H, C>(t: Table<H, C>, c: C): set<H> {
    set h | h in t.handles && t.handles[h].On? && t.handles[h].count == c
  }

  /** Every handle's count is allocated and its descriptor open. */
  ghost predicate SlotsBacked<H, C>(t: Table<H, C>) {
    forall h | h in t.handles && t.handles[h].On? :: t.handles[h].count in t.counts && t.handles[h].fd in t.open
  }

  /** Each count is the number of live handles that share it, and is positive. */
  ghost predicate CountsExact<H, C>(t: Table<H, C>) {
    forall c | c in t.counts :: t.counts[c] == |Sharers(t, c)| > 0
  }

  /** Two handles share a count exactly when they are on the same descriptor. */
  ghost predicate OneCountEach<H, C>(t: Table<H, C>) {
    forall g, h | g in t.handles && h in t.handles && t.handles[g].On? && t.handles[h].On? ::
      t.handles[g].count == t.handles[h].count <==> t.handles[g].fd == t.handles[h].fd
  }

  /** No descriptor is closed twice, or open after being closed. */
  ghost predicate ClosedOnce<H, C>(t: Table<H, C>) {
    && (forall i | 0 <= i < |t.closed| :: t.closed[i] !in t.open)
    && (forall i, j | 0 <= i < j < |t.closed| :: t.closed[i] != t.closed[j])
  }

  /** With SlotsBacked: a descriptor is open exactly while some live handle is on it. */
  ghost predicate OpenIsHeld<H, C>(t: Table<H, C>) {
    forall fd | fd in t.open :: HasHandle(t, fd)
  }

  ghost predicate Inv<H, C>(t: Table<H, C>) {
    SlotsBacked(t) && CountsExact(t) && OneCountEach(t) && OpenIsHeld(t) && ClosedOnce(t)
  }

  ghost predicate HasHandle<H, C>(t: Table<H, C>, fd: int) {
    exists h | h in t.handles :: t.handles[h].On? && t.handles[h].fd == fd
  }

  // ---------------------------------------------------------------- the operations

  function WithOff<H, C>(t: Table<H, C>, h: H): Table<H, C> {
    t.(handles := t.handles[h := Off])
  }

  /** A handle on a descriptor the system just opened, with a new count of one. */
  function Manage<H, C>(t: Table<H, C>, h: H, fd: int, c: C): Table<H, C> {
    Table(t.handles[h := On(fd, c)], t.counts[c := 1], t.open + {fd}, t.closed)
  }

  /** One more handle on the descriptor of a slot. */
  function Attach<H, C>(t: Table<H, C>, h: H, slot: Slot<C>): Table<H, C>
    requires slot.On? && slot.count in t.counts
  {
    t.(handles := t.handles[h := slot], counts := t.counts[slot.count := t.counts[slot.count] + 1])
  }

  /** The part shared by destructors and assignments: take one off the count; at zero free it, close
      the descriptor and clear the handle. Otherwise the handle is left as it is. */
  function Dropped<H, C>(t: Table<H, C>, h: H): Table<H, C>
    requires h in t.handles && (t.handles[h].On? ==> t.handles[h].count in t.counts)
  {
    match t.handles[h]
    case Off => t
    case On(fd, c) =>
      if t.counts[c] == 1 then Table(t.handles[h := Off], t.counts - {c}, t.open - {fd}, t.closed + [fd])
      else t.(counts := t.counts[c := t.counts[c] - 1])
  }

  /** Destructors of both classes. */
  function Destroyed<H, C>(t: Table<H, C>, h: H): Table<H, C>
    requires h in t.handles && (t.handles[h].On? ==> t.handles[h].count in t.counts)
  {
    var d := Dropped(t, h);
    d.(handles := d.handles - {h})
  }

  /** Take over a slot, counting up on it. Socket does so without looking whether there is a count, so
      for it an empty slot is a null dereference: None. sync_socket counts up only when connected. */
  function Shared<H, C>(sync: bool, t: Table<H, C>, h: H, slot: Slot<C>): Option<Table<H, C>> {
    match slot
    case Off => if sync then Some(WithOff(t, h)) else None
    case On(_, c) => if c in t.counts then Some(Attach(t, h, slot)) else None
  }

  /** The copy constructors, and the move constructor, which also shares and never clears its source. */
  function Copied<H, C>(sync: bool, t: Table<H, C>, h: H, src: H): Option<Table<H, C>>
    requires src in t.handles
  {
    Shared(sync, t, h, t.handles[src])
  }

  /** Assignment: drop what `h` holds, then take over the source's slot as it is by then. */
  function Assigned<H, C>(sync: bool, t: Table<H, C>, h: H, src: H): Option<Table<H, C>>
    requires h in t.handles && src in t.handles && SlotsBacked(t)
  {
    var d := Dropped(t, h);
    Shared(sync, d, h, d.handles[src])
  }

  /** `sync_socket::connect`. When no address can be connected to it throws, leaving the number of
      the last attempt in `_fd`. */
  datatype Attempt<C> = Connected(fd: int, count: C) | Failed(lastFd: int)

  function Connect<H, C>(t: Table<H, C>, h: H, result: Attempt<C>): Table<H, C>
    requires h in t.handles && SlotsBacked(t)
  {
    var d := Dropped(t, h);
    match result
    case Connected(fd, c) => Manage(d, h, fd, c)
    case Failed(lastFd) =>
      if d.handles[h].On? then d.(handles := d.handles[h := On(lastFd, d.handles[h].count)]) else d
  }

  // ---------------------------------------------------------------- lemmas

  /** Changing one handle changes the sharers of a count by at most that handle. */
  lemma SharersUpdate<H, C>(t: Table<H, C>, h: H, slot: Slot<C>, c: C)
    ensures var u := t.(handles := t.handles[h := slot]);
      Sharers(u, c) == if slot.On? && slot.count == c then Sharers(t, c) + {h} else Sharers(t, c) - {h}
  {
  }

  lemma ManageCounts<H, C>(t: Table<H, C>, h: H, fd: int, c: C)
    requires SlotsBacked(t) && CountsExact(t) && (h !in t.handles || t.handles[h].Off?) && c !in t.counts
    ensures CountsExact(Manage(t, h, fd, c))
  {
    var u := Manage(t, h, fd, c);
    forall d | d in u.counts ensures u.counts[d] == |Sharers(u, d)| > 0 {
      SharersUpdate(t, h, On(fd, c), d);
      assert Sharers(u, d) == Sharers(t.(handles := u.handles), d);
      if d == c {
        assert Sharers(t, c) == {};
        assert Sharers(u, d) == {h};
      } else {
        assert Sharers(t, d) - {h} == Sharers(t, d);
      }
    }
  }

  lemma ManageOpen<H, C>(t: Table<H, C>, h: H, fd: int, c: C)
    requires OpenIsHeld(t) && (h !in t.handles || t.handles[h].Off?)
    ensures OpenIsHeld(Manage(t, h, fd, c))
  {
    var u := Manage(t, h, fd, c);
    forall f | f in u.open ensures HasHandle(u, f) {
      if f == fd {
        assert u.handles[h].On?;
      } else {
        var g :| g in t.handles && t.handles[g].On? && t.handles[g].fd == f;
        assert u.handles[g] == t.handles[g];
      }
    }
  }

  lemma ManageDistinct<H, C>(t: Table<H, C>, h: H, fd: int, c: C)
    requires OneCountEach(t) && SlotsBacked(t) && c !in t.counts && fd !in t.open
    ensures SlotsBacked(Manage(t, h, fd, c)) && OneCountEach(Manage(t, h, fd, c))
  {
  }

  lemma ManageInv<H, C>(t: Table<H, C>, h: H, fd: int, c: C)
    requires Inv(t) && (h !in t.handles || t.handles[h].Off?)
    requires c !in t.counts && fd !in t.open && fd !in t.closed
    ensures Inv(Manage(t, h, fd, c))
  {
    ManageCounts(t, h, fd, c);
    ManageOpen(t, h, fd, c);
    ManageDistinct(t, h, fd, c);
  }

  lemma SharersOfAttach<H, C>(t: Table<H, C>, h: H, slot: Slot<C>, d: C)
    requires (h !in t.handles || t.handles[h].Off?) && slot.On? && slot.count in t.counts
    ensures h !in Sharers(t, d)
    ensures Sharers(Attach(t, h, slot), d) == if d == slot.count then Sharers(t, d) + {h} else Sharers(t, d)
  {
    SharersUpdate(t, h, slot, d);
    assert Sharers(Attach(t, h, slot), d) == Sharers(t.(handles := t.handles[h := slot]), d);
  }

  lemma AttachCount<H, C>(t: Table<H, C>, h: H, slot: Slot<C>, d: C)
    requires CountsExact(t) && (h !in t.handles || t.handles[h].Off?)
    requires slot.On? && slot.count in t.counts && d in t.counts
    ensures Attach(t, h, slot).counts[d] == |Sharers(Attach(t, h, slot), d)| > 0
  {
    SharersOfAttach(t, h, slot, d);
    assert |Sharers(t, d) + {h}| == |Sharers(t, d)| + 1;
  }

  lemma AttachCounts<H, C>(t: Table<H, C>, h: H, slot: Slot<C>)
    requires CountsExact(t) && (h !in t.handles || t.handles[h].Off?)
    requires slot.On? && slot.count in t.counts
    ensures CountsExact(Attach(t, h, slot))
  {
    var u := Attach(t, h, slot);
    forall d | d in u.counts ensures u.counts[d] == |Sharers(u, d)| > 0 {
      AttachCount(t, h, slot, d);
    }
  }

  lemma AttachOpen<H, C>(t: Table<H, C>, h: H, slot: Slot<C>)
    requires OpenIsHeld(t) && (h !in t.handles || t.handles[h].Off?)
    requires slot.On? && slot.count in t.counts
    ensures OpenIsHeld(Attach(t, h, slot))
  {
    var u := Attach(t, h, slot);
    forall f | f in u.open ensures HasHandle(u, f) {
      var g :| g in t.handles && t.handles[g].On? && t.handles[g].fd == f;
      assert u.handles[g] == t.handles[g];
    }
  }

  lemma AttachDistinct<H, C>(t: Table<H, C>, h: H, src: H)
    requires OneCountEach(t) && SlotsBacked(t) && (h !in t.handles || t.handles[h].Off?)
    requires src in t.handles && t.handles[src].On?
    ensures OneCountEach(Attach(t, h, t.handles[src])) && SlotsBacked(Attach(t, h, t.handles[src]))
  {
  }

  lemma AttachInv<H, C>(t: Table<H, C>, h: H, src: H)
    requires Inv(t) && (h !in t.handles || t.handles[h].Off?)
    requires src in t.handles && t.handles[src].On?
    ensures Inv(Attach(t, h, t.handles[src]))
  {
    AttachCounts(t, h, t.handles[src]);
    AttachOpen(t, h, t.handles[src]);
    AttachDistinct(t, h, src);
  }

  /** Taking one handle off its descriptor. */
  function Detached<H, C>(t: Table<H, C>, h: H): Table<H, C>
    requires h in t.handles && (t.handles[h].On? ==> t.handles[h].count in t.counts)
  {
    WithOff(Dropped(t, h), h)
  }

  lemma DetachedCounts<H, C>(t: Table<H, C>, h: H, d: C)
    requires Inv(t) && h in t.handles && t.handles[h].On? && d in Detached(t, h).counts
    ensures Detached(t, h).counts[d] == |Sharers(Detached(t, h), d)| > 0
  {
    var u := Detached(t, h);
    SharersUpdate(t, h, Off, d);
    assert Sharers(u, d) == Sharers(t, d) - {h};
    assert h in Sharers(t, t.handles[h].count);
    assert d != t.handles[h].count ==> Sharers(t, d) - {h} == Sharers(t, d);
  }

  /** The last handle on a descriptor is the only one. */
  lemma OnlySharer<H, C>(t: Table<H, C>, h: H, g: H)
    requires Inv(t) && h in t.handles && t.handles[h].On? && t.counts[t.handles[h].count] == 1
    requires g in t.handles && t.handles[g].On? && t.handles[g].count == t.handles[h].count
    ensures g == h
  {
    var s := Sharers(t, t.handles[h].count);
    assert h in s && g in s;
    if g != h {
      assert {g, h} <= s;
      Subset({g, h}, s);
    }
  }

  lemma {:induction false} Subset<T>(a: set<T>, b: set<T>)
    requires a <= b
    ensures |a| <= |b|
  {
    if a != {} {
      var x :| x in a;
      Subset(a - {x}, b - {x});
    }
  }

  /** While others share the count, one of them keeps the descriptor open. */
  lemma AnotherSharer<H, C>(t: Table<H, C>, h: H) returns (g: H)
    requires Inv(t) && h in t.handles && t.handles[h].On? && t.counts[t.handles[h].count] > 1
    ensures g != h && g in t.handles && t.handles[g].On? && t.handles[g].count == t.handles[h].count
  {
    var rest := Sharers(t, t.handles[h].count) - {h};
    assert h in Sharers(t, t.handles[h].count);
    assert |rest| > 0;
    g :| g in rest;
  }

  lemma DetachedOpen<H, C>(t: Table<H, C>, h: H, f: int)
    requires Inv(t) && h in t.handles && t.handles[h].On? && f in Detached(t, h).open
    ensures HasHandle(Detached(t, h), f)
  {
    var u := Detached(t, h);
    var g: H;
    if f == t.handles[h].fd {
      g := AnotherSharer(t, h);
    } else {
      g :| g in t.handles && t.handles[g].On? && t.handles[g].fd == f;
    }
    assert u.handles[g] == t.handles[g];
  }

  lemma DetachedSlots<H, C>(t: Table<H, C>, h: H, g: H)
    requires Inv(t) && h in t.handles && t.handles[h].On?
    requires g in Detached(t, h).handles && Detached(t, h).handles[g].On?
    ensures var u := Detached(t, h); u.handles[g].count in u.counts && u.handles[g].fd in u.open
  {
    assert g != h && t.handles[g] == Detached(t, h).handles[g];
    if t.counts[t.handles[h].count] == 1 && t.handles[g].count == t.handles[h].count {
      OnlySharer(t, h, g);
    }
  }

  lemma DetachedClosed<H, C>(t: Table<H, C>, h: H)
    requires Inv(t) && h in t.handles && t.handles[h].On?
    ensures ClosedOnce(Detached(t, h)) && OneCountEach(Detached(t, h))
  {
  }

  lemma DetachedInv<H, C>(t: Table<H, C>, h: H)
    requires Inv(t) && h in t.handles
    ensures Inv(Detached(t, h))
  {
    var u := Detached(t, h);
    if t.handles[h].On? {
      forall d | d in u.counts ensures u.counts[d] == |Sharers(u, d)| > 0 {
        DetachedCounts(t, h, d);
      }
      forall f | f in u.open ensures HasHandle(u, f) {
        DetachedOpen(t, h, f);
      }
      forall g | g in u.handles && u.handles[g].On?
        ensures u.handles[g].count in u.counts && u.handles[g].fd in u.open
      {
        DetachedSlots(t, h, g);
      }
      DetachedClosed(t, h);
    } else {
      assert u.handles == t.handles;
      assert u == t;
    }
  }

  /** Adding or removing handles that are off. */
  ghost predicate SameOn<H, C>(t: Table<H, C>, u: Table<H, C>) {
    && u == t.(handles := u.handles)
    && (forall g | g in t.handles && t.handles[g].On? :: g in u.handles && u.handles[g] == t.handles[g])
    && (forall g | g in u.handles && u.handles[g].On? :: g in t.handles && u.handles[g] == t.handles[g])
  }

  lemma SameOnHeld<H, C>(t: Table<H, C>, u: Table<H, C>)
    requires CountsExact(t) && OpenIsHeld(t) && SameOn(t, u)
    ensures CountsExact(u) && OpenIsHeld(u)
  {
    forall c | c in u.counts ensures u.counts[c] == |Sharers(u, c)| > 0 {
      assert Sharers(u, c) == Sharers(t, c);
    }
    forall f | f in u.open ensures HasHandle(u, f) {
      var g :| g in t.handles && t.handles[g].On? && t.handles[g].fd == f;
      assert u.handles[g] == t.handles[g];
    }
  }

  lemma SameOnInv<H, C>(t: Table<H, C>, u: Table<H, C>)
    requires Inv(t) && SameOn(t, u)
    ensures Inv(u)
  {
    SameOnHeld(t, u);
    assert SlotsBacked(u) && OneCountEach(u);
  }

  lemma SharedWithBlank<H, C>(sync: bool, t: Table<H, C>, h: H, slot: Slot<C>)
    ensures Shared(sync, WithOff(t, h), h, slot) == Shared(sync, t, h, slot)
  {
    assert t.handles[h := Off][h := slot] == t.handles[h := slot];
  }

  lemma ForgottenIsSame<H, C>(t: Table<H, C>, h: H)
    requires SlotsBacked(t) && h in t.handles
    ensures SameOn(Detached(t, h), Destroyed(t, h))
  {
  }

  lemma DestroyedInv<H, C>(t: Table<H, C>, h: H)
    requires Inv(t) && h in t.handles
    ensures Inv(Destroyed(t, h))
  {
    ForgottenIsSame(t, h);
    DetachedInv(t, h);
    SameOnInv(Detached(t, h), Destroyed(t, h));
  }

  /** Assigning a handle on a shared descriptor to itself changes nothing. */
  lemma SharedSelfAssign<H, C>(sync: bool, t: Table<H, C>, h: H)
    requires Inv(t) && h in t.handles && t.handles[h].On? && t.counts[t.handles[h].count] > 1
    ensures Assigned(sync, t, h, h) == Some(t)
  {
    var c := t.handles[h].count;
    var u := Attach(Dropped(t, h), h, t.handles[h]);
    assert u.handles == t.handles;
    assert u.counts == t.counts;
  }

  /** The only handle on its descriptor, assigned to itself: the descriptor is closed. A Socket then
      counts up through a null pointer; a sync_socket ends up unconnected. */
  lemma SoleSelfAssign<H, C>(sync: bool, t: Table<H, C>, h: H)
    requires Inv(t) && h in t.handles && t.handles[h].On? && t.counts[t.handles[h].count] == 1
    ensures Assigned(sync, t, h, h) == if sync then Some(Detached(t, h)) else None
    ensures t.handles[h].fd in t.open && t.handles[h].fd !in Detached(t, h).open
  {
  }

  /** The case that is neither: dropping `h` leaves another source as it was. */
  lemma AssignOther<H, C>(sync: bool, t: Table<H, C>, h: H, src: H)
    requires Inv(t) && h in t.handles && src in t.handles && src != h
    ensures t.handles[src].On? ==> t.handles[src].count in Detached(t, h).counts
    ensures Assigned(sync, t, h, src) ==
      if t.handles[src].On? then Some(Attach(Detached(t, h), h, t.handles[src]))
      else if sync then Some(Detached(t, h))
      else None
  {
    var d := Dropped(t, h);
    assert d.handles[src] == t.handles[src] == Detached(t, h).handles[src];
    if t.handles[src].On? {
      if t.handles[h].On? && t.counts[t.handles[h].count] == 1 && t.handles[src].count == t.handles[h].count {
        OnlySharer(t, h, src);
      }
      assert d.handles[h := t.handles[src]] == d.handles[h := Off][h := t.handles[src]];
    }
  }

  /** When assignment works: always for a sync_socket; for a Socket exactly when the source has a
      count and is not the assigned handle itself as the only one on its descriptor. The source of a
      successful assignment, unless it is the handle itself, is then shared. */
  lemma AssignExact<H, C>(sync: bool, t: Table<H, C>, h: H, src: H)
    requires Inv(t) && h in t.handles && src in t.handles
    ensures Assigned(sync, t, h, src).Some? <==>
      sync || (t.handles[src].On? && !(h == src && t.counts[t.handles[src].count] == 1))
    ensures Assigned(sync, t, h, src).Some? ==> Inv(Assigned(sync, t, h, src).value)
    ensures Assigned(sync, t, h, src).Some? && h != src ==>
      Assigned(sync, t, h, src).value.handles[h] == t.handles[src]
  {
    DetachedInv(t, h);
    if h != src {
      AssignOther(sync, t, h, src);
      if t.handles[src].On? {
        assert Detached(t, h).handles[src] == t.handles[src];
        AttachInv(Detached(t, h), h, src);
      }
    } else if t.handles[h].On? {
      if t.counts[t.handles[h].count] == 1 {
        SoleSelfAssign(sync, t, h);
      } else {
        assert t.counts[t.handles[h].count] > 1;
        SharedSelfAssign(sync, t, h);
      }
    } else {
      assert sync ==> WithOff(Dropped(t, h), h) == Detached(t, h);
    }
  }

  // ---------------------------------------------------------------- connecting

  lemma ConnectedInv<H, C>(t: Table<H, C>, h: H, fd: int, c: C)
    requires Inv(t) && h in t.handles
    requires c !in t.counts && fd !in t.open && fd !in t.closed
    ensures Inv(Connect(t, h, Connected(fd, c)))
  {
    DetachedInv(t, h);
    ManageInv(Detached(t, h), h, fd, c);
    var d := Dropped(t, h);
    assert d.handles[h := On(fd, c)] == d.handles[h := Off][h := On(fd, c)];
  }

  /** A sharing handle whose connect fails gives up its place in the count, stays connected, and now
      holds the number of the last attempt: the count is one short. */
  lemma FailedConnectLosesCount<H, C>(t: Table<H, C>, h: H, lastFd: int)
    requires CountsExact(t) && SlotsBacked(t) && h in t.handles
    requires t.handles[h].On? && t.counts[t.handles[h].count] > 1
    ensures var u := Connect(t, h, Failed(lastFd)); var c := t.handles[h].count;
      c in u.counts && u.counts[c] == |Sharers(u, c)| - 1 && u.handles[h] == On(lastFd, c)
  {
    assert Sharers(Connect(t, h, Failed(lastFd)), t.handles[h].count) == Sharers(t, t.handles[h].count);
  }

  /** A failed connect keeps the invariant if and only if the handle was not sharing a descriptor. */
  lemma FailedConnectExact<H, C>(t: Table<H, C>, h: H, lastFd: int)
    requires Inv(t) && h in t.handles
    ensures Inv(Connect(t, h, Failed(lastFd))) <==> t.handles[h].Off? || t.counts[t.handles[h].count] == 1
  {
    if t.handles[h].Off? || t.counts[t.handles[h].count] == 1 {
      DetachedInv(t, h);
      assert Dropped(t, h).handles[h := Off] == Dropped(t, h).handles;
      assert Connect(t, h, Failed(lastFd)) == Detached(t, h);
    } else {
      FailedConnectLosesCount(t, h, lastFd);
    }
  }

  // ---------------------------------------------------------------- whole runs

  /** What a program can do to handles of one class. */
  datatype Event<H, C> =
    | Blank(h: H)
    | Adopt(h: H, fd: int, count: C)
    | Copy(h: H, src: H)
    | Destroy(h: H)
    | Assign(h: H, src: H)
    | Dial(h: H, result: Attempt<C>)

  /** What the language and the system see to: constructors make new objects, the others use live
      ones, allocation and the kernel give out what is not in use. */
  ghost predicate Possible<H, C>(sync: bool, t: Table<H, C>, e: Event<H, C>) {
    match e
    case Blank(h) => h !in t.handles
    case Adopt(h, fd, c) => h !in t.handles && c !in t.counts && fd !in t.open && fd !in t.closed
    case Copy(h, src) => h !in t.handles && src in t.handles
    case Destroy(h) => h in t.handles
    case Assign(h, src) => h in t.handles && src in t.handles
    case Dial(h, Connected(fd, c)) => sync && h in t.handles && c !in t.counts && fd !in t.open && fd !in t.closed
    case Dial(h, Failed(_)) => sync && h in t.handles
  }

  /** None when the code dereferences a null pointer. */
  ghost function Apply<H, C>(sync: bool, t: Table<H, C>, e: Event<H, C>): Option<Table<H, C>>
    requires SlotsBacked(t) && Possible(sync, t, e)
  {
    match e
    case Blank(h) => Some(WithOff(t, h))
    case Adopt(h, fd, c) => Some(Manage(t, h, fd, c))
    case Copy(h, src) => Copied(sync, t, h, src)
    case Destroy(h) => Some(Destroyed(t, h))
    case Assign(h, src) => Assigned(sync, t, h, src)
    case Dial(h, result) => Some(Connect(t, h, result))
  }

  /** What a caller must see to: the source of a Socket copy or assignment has a count, the only
      Socket on a descriptor is not assigned to itself, and `connect` is not called on a handle that
      shares a descriptor unless it succeeds. */
  ghost predicate Careful<H, C>(sync: bool, t: Table<H, C>, e: Event<H, C>)
    requires Possible(sync, t, e) && SlotsBacked(t)
  {
    match e
    case Copy(_, src) => sync || t.handles[src].On?
    case Assign(h, src) => sync || (t.handles[src].On? && !(h == src && t.counts[t.handles[src].count] == 1))
    case Dial(h, Failed(_)) => t.handles[h].Off? || t.counts[t.handles[h].count] == 1
    case _ => true
  }

  /** The three conditions of Careful are exactly what one step needs. */
  lemma StepIsSafeIffCareful<H, C>(sync: bool, t: Table<H, C>, e: Event<H, C>)
    requires Inv(t) && Possible(sync, t, e)
    ensures Careful(sync, t, e) <==> Apply(sync, t, e).Some? && Inv(Apply(sync, t, e).value)
  {
    match e
    case Blank(h) => SameOnInv(t, WithOff(t, h));
    case Adopt(h, fd, c) => ManageInv(t, h, fd, c);
    case Copy(h, src) => if t.handles[src].On? { AttachInv(t, h, src); } else { SameOnInv(t, WithOff(t, h)); }
    case Destroy(h) => DestroyedInv(t, h);
    case Assign(h, src) => AssignExact(sync, t, h, src);
    case Dial(h, Connected(fd, c)) => ConnectedInv(t, h, fd, c);
    case Dial(h, Failed(lastFd)) => FailedConnectExact(t, h, lastFd);
  }

  ghost function Stepped<H, C>(sync: bool, t: Table<H, C>, e: Event<H, C>): (u: Table<H, C>)
    requires Inv(t) && Possible(sync, t, e) && Careful(sync, t, e)
    ensures Inv(u) && Apply(sync, t, e) == Some(u)
  {
    StepIsSafeIffCareful(sync, t, e);
    Apply(sync, t, e).value
  }

  ghost predicate CarefulRun<H, C>(sync: bool, t: Table<H, C>, es: seq<Event<H, C>>)
    requires Inv(t)
    decreases |es|
  {
    |es| > 0 ==>
      Possible(sync, t, es[0]) && Careful(sync, t, es[0]) && CarefulRun(sync, Stepped(sync, t, es[0]), es[1..])
  }

  ghost function Run<H, C>(sync: bool, t: Table<H, C>, es: seq<Event<H, C>>): (u: Table<H, C>)
    requires Inv(t) && CarefulRun(sync, t, es)
    ensures Inv(u)
    decreases |es|
  {
    if |es| == 0 then t else Run(sync, Stepped(sync, t, es[0]), es[1..])
  }

  // ---------------------------------------------------------------- what the counting is for

  /** Which handle is on which descriptor: all a program needs to know. */
  ghost function Held<H, C>(t: Table<H, C>): map<H, int> {
    map h | h in t.handles && t.handles[h].On? :: t.handles[h].fd
  }

  /** What each operation does to that, told without counts: a copied or assigned handle is on what its
      source is on, a destroyed one on nothing, a connected one on what was opened. A handle assigned to
      itself stays where it is only while others are there too. */
  ghost function HeldAfter<H, C>(m: map<H, int>, e: Event<H, C>): map<H, int> {
    match e
    case Blank(_) => m
    case Adopt(h, fd, _) => m[h := fd]
    case Copy(h, src) => if src in m then m[h := m[src]] else m
    case Destroy(h) => m - {h}
    case Assign(h, src) =>
      if h == src then (if h in m && Alone(m, h) then m - {h} else m)
      else if src in m then m[h := m[src]]
      else m - {h}
    case Dial(h, Connected(fd, _)) => m[h := fd]
    case Dial(h, Failed(_)) => m - {h}
  }

  ghost predicate IsHeld<H>(m: map<H, int>, fd: int) {
    exists h :: h in m && m[h] == fd
  }

  /** No other handle is on its descriptor. */
  ghost predicate Alone<H>(m: map<H, int>, h: H)
    requires h in m
  {
    forall g | g in m && g != h :: m[g] != m[h]
  }

  /** The live handles after an operation. */
  ghost function LiveAfter<H, C>(live: set<H>, e: Event<H, C>): set<H> {
    if e.Destroy? then live - {e.h} else live + {e.h}
  }

  /** The descriptor that nobody is on any more is closed, and only that. */
  ghost function ClosedBy<H, C>(m: map<H, int>, e: Event<H, C>): seq<int> {
    if e.h in m && !IsHeld(HeldAfter(m, e), m[e.h]) then [m[e.h]] else []
  }

  ghost predicate Refined<H, C>(t: Table<H, C>, u: Table<H, C>, e: Event<H, C>) {
    && Held(u) == HeldAfter(Held(t), e)
    && u.closed == t.closed + ClosedBy(Held(t), e)
    && u.handles.Keys == LiveAfter(t.handles.Keys, e)
  }

  lemma OneLeft<H, C>(t: Table<H, C>, h: H)
    requires Inv(t) && h in t.handles && t.handles[h].On?
    ensures t.counts[t.handles[h].count] == 1 <==> Alone(Held(t), h)
  {
    var m := Held(t);
    if t.counts[t.handles[h].count] == 1 {
      if g :| g in m && g != h && m[g] == m[h] {
        OnlySharer(t, h, g);
      }
    } else {
      assert t.counts[t.handles[h].count] == |Sharers(t, t.handles[h].count)|;
      var g := AnotherSharer(t, h);
      assert m[g] == m[h];
    }
  }

  lemma HeldUpdate<H, C>(t: Table<H, C>, u: Table<H, C>, h: H, slot: Slot<C>)
    requires u.handles == t.handles[h := slot]
    ensures Held(u) == (if slot.On? then Held(t)[h := slot.fd] else Held(t) - {h})
    ensures u.handles.Keys == t.handles.Keys + {h}
  {
  }

  lemma DetachedHeld<H, C>(t: Table<H, C>, h: H)
    requires Inv(t) && h in t.handles
    ensures Held(Detached(t, h)) == Held(t) - {h}
    ensures Detached(t, h).closed == t.closed + (if h in Held(t) && Alone(Held(t), h) then [Held(t)[h]] else [])
    ensures Detached(t, h).handles == t.handles[h := Off]
  {
    if t.handles[h].On? {
      OneLeft(t, h);
    }
    HeldUpdate(t, Detached(t, h), h, Off);
  }

  /** Letting go of a descriptor leaves it held exactly if the handle was not alone on it. */
  lemma LetGo<H>(m: map<H, int>, h: H, fd: int)
    requires h in m && fd != m[h]
    ensures IsHeld(m - {h}, m[h]) <==> !Alone(m, h)
    ensures IsHeld(m[h := fd], m[h]) <==> !Alone(m, h)
  {
    if !Alone(m, h) {
      var g :| g in m && g != h && m[g] == m[h];
      assert g in m - {h} && (m - {h})[g] == m[h];
      assert g in m[h := fd] && m[h := fd][g] == m[h];
    }
  }

  lemma GoesOff<H, C>(t: Table<H, C>, h: H, e: Event<H, C>)
    requires Inv(t) && h in t.handles && e.h == h && !e.Destroy? && HeldAfter(Held(t), e) == Held(t) - {h}
    ensures Refined(t, Detached(t, h), e)
  {
    DetachedHeld(t, h);
    if h in Held(t) {
      LetGo(Held(t), h, Held(t)[h] + 1);
    }
  }

  lemma LetGoOver<H>(m: map<H, int>, h: H, fd: int)
    requires h in m && (m[h] == fd ==> !Alone(m, h))
    ensures IsHeld(m[h := fd], m[h]) <==> !Alone(m, h)
  {
    if m[h] != fd {
      LetGo(m, h, fd);
    } else {
      assert m[h := fd] == m;
    }
  }

  /** Going over to a descriptor, held by another handle or by none. */
  lemma GoesOver<H, C>(t: Table<H, C>, u: Table<H, C>, h: H, slot: Slot<C>, e: Event<H, C>)
    requires Inv(t) && h in t.handles && e.h == h && !e.Destroy? && slot.On? && HeldAfter(Held(t), e) == Held(t)[h := slot.fd]
    requires u.handles == Detached(t, h).handles[h := slot] && u.closed == Detached(t, h).closed
    requires h in Held(t) && Held(t)[h] == slot.fd ==> !Alone(Held(t), h)
    ensures Refined(t, u, e)
  {
    DetachedHeld(t, h);
    assert t.handles[h := Off][h := slot] == t.handles[h := slot];
    HeldUpdate(t, u, h, slot);
    if h in Held(t) {
      LetGoOver(Held(t), h, slot.fd);
    }
  }

  lemma TakesOver<H, C>(t: Table<H, C>, h: H, src: H)
    requires Inv(t) && h in t.handles && src in t.handles && h != src && t.handles[src].On?
    requires t.handles[src].count in Detached(t, h).counts
    ensures Refined(t, Attach(Detached(t, h), h, t.handles[src]), Event<H, C>.Assign(h, src))
  {
    assert Held(t)[src] == t.handles[src].fd;
    GoesOver(t, Attach(Detached(t, h), h, t.handles[src]), h, t.handles[src], Event<H, C>.Assign(h, src));
  }

  lemma AssignOtherHeld<H, C>(sync: bool, t: Table<H, C>, h: H, src: H, u: Table<H, C>)
    requires Inv(t) && h in t.handles && src in t.handles && h != src && Assigned(sync, t, h, src) == Some(u)
    ensures Refined(t, u, Event<H, C>.Assign(h, src))
  {
    AssignOther(sync, t, h, src);
    if t.handles[src].On? {
      TakesOver(t, h, src);
    } else {
      GoesOff(t, h, Event<H, C>.Assign(h, src));
    }
  }

  lemma AssignHeld<H, C>(sync: bool, t: Table<H, C>, h: H, src: H, u: Table<H, C>)
    requires Inv(t) && h in t.handles && src in t.handles && Assigned(sync, t, h, src) == Some(u)
    ensures Refined(t, u, Event<H, C>.Assign(h, src))
  {
    if h != src {
      AssignOtherHeld(sync, t, h, src, u);
    } else {
      AssignSelfHeld(sync, t, h);
    }
  }

  lemma AssignSelfHeld<H, C>(sync: bool, t: Table<H, C>, h: H)
    requires Inv(t) && h in t.handles && Assigned(sync, t, h, h).Some?
    ensures Refined(t, Assigned(sync, t, h, h).value, Event<H, C>.Assign(h, h))
  {
    var e: Event<H, C> := Event.Assign(h, h);
    if t.handles[h].On? {
      OneLeft(t, h);
      if Alone(Held(t), h) {
        SoleSelfAssign(sync, t, h);
        GoesOff(t, h, e);
      } else {
        assert t.counts[t.handles[h].count] == |Sharers(t, t.handles[h].count)|;
        SharedSelfAssign(sync, t, h);
        assert IsHeld(Held(t), Held(t)[h]);
      }
    } else {
      assert t.handles[h := Off] == t.handles;
    }
  }

  lemma ConnectHeld<H, C>(t: Table<H, C>, h: H, result: Attempt<C>)
    requires Inv(t) && h in t.handles
    requires if result.Connected? then result.fd !in t.open else t.handles[h].Off? || t.counts[t.handles[h].count] == 1
    ensures Refined(t, Connect(t, h, result), Event<H, C>.Dial(h, result))
  {
    var e: Event<H, C> := Dial(h, result);
    match result
    case Connected(fd, c) =>
      assert Dropped(t, h).handles[h := On(fd, c)] == Detached(t, h).handles[h := On(fd, c)];
      GoesOver(t, Connect(t, h, result), h, On(fd, c), e);
    case Failed(_) =>
      assert Dropped(t, h).handles[h := Off] == Dropped(t, h).handles;
      GoesOff(t, h, e);
  }

  lemma DestroyHeld<H, C>(t: Table<H, C>, h: H)
    requires Inv(t) && h in t.handles
    ensures Refined(t, Destroyed(t, h), Event<H, C>.Destroy(h))
  {
    DetachedHeld(t, h);
    if h in Held(t) {
      LetGo(Held(t), h, Held(t)[h] + 1);
    }
  }

  /** A copy of a connected handle is on the same descriptor and counts as one more; nothing else
      changes. */
  lemma CopyShares<H, C>(sync: bool, t: Table<H, C>, h: H, src: H)
    requires Inv(t) && h !in t.handles && src in t.handles && t.handles[src].On?
    ensures var c := t.handles[src].count;
      && c in t.counts
      && Copied(sync, t, h, src)
         == Some(t.(handles := t.handles[h := t.handles[src]], counts := t.counts[c := t.counts[c] + 1]))
  {
  }

  /** A new handle. */
  lemma NewHeld<H, C>(t: Table<H, C>, u: Table<H, C>, h: H, slot: Slot<C>, e: Event<H, C>)
    requires h !in t.handles && u.handles == t.handles[h := slot] && u.closed == t.closed && e.h == h && !e.Destroy?
    requires HeldAfter(Held(t), e) == if slot.On? then Held(t)[h := slot.fd] else Held(t) - {h}
    ensures Refined(t, u, e)
  {
    HeldUpdate(t, u, h, slot);
  }

  lemma CopyHeld<H, C>(sync: bool, t: Table<H, C>, h: H, src: H)
    requires Inv(t) && h !in t.handles && src in t.handles && (sync || t.handles[src].On?)
    ensures Copied(sync, t, h, src).Some? && Refined(t, Copied(sync, t, h, src).value, Event<H, C>.Copy(h, src))
  {
    var e: Event<H, C> := Event.Copy(h, src);
    if t.handles[src].On? {
      CopyShares(sync, t, h, src);
    }
    NewHeld(t, Copied(sync, t, h, src).value, h, t.handles[src], e);
  }

  /** One careful operation of the counted table is the operation told without counts: the handles are
      on the descriptors they should be on, and a descriptor is closed by exactly the operation after
      which nobody is on it. */
  lemma StepRefines<H, C>(sync: bool, t: Table<H, C>, e: Event<H, C>)
    requires Inv(t) && Possible(sync, t, e) && Careful(sync, t, e)
    ensures Refined(t, Stepped(sync, t, e), e)
  {
    match e
    case Destroy(h) => DestroyHeld(t, h);
    case Assign(h, src) => AssignExact(sync, t, h, src); AssignHeld(sync, t, h, src, Stepped(sync, t, e));
    case Dial(h, result) => ConnectHeld(t, h, result);
    case Copy(h, src) => CopyHeld(sync, t, h, src);
    case Blank(h) => NewHeld(t, WithOff(t, h), h, Off, e);
    case Adopt(h, fd, c) => NewHeld(t, Manage(t, h, fd, c), h, On(fd, c), e);
  }

  ghost function HeldAfterAll<H, C>(m: map<H, int>, es: seq<Event<H, C>>): map<H, int>
    decreases |es|
  {
    if |es| == 0 then m else HeldAfterAll(HeldAfter(m, es[0]), es[1..])
  }

  ghost function ClosedByAll<H, C>(m: map<H, int>, es: seq<Event<H, C>>): seq<int>
    decreases |es|
  {
    if |es| == 0 then [] else ClosedBy(m, es[0]) + ClosedByAll(HeldAfter(m, es[0]), es[1..])
  }

  lemma OpenIsHeldExactly<H, C>(t: Table<H, C>)
    requires Inv(t)
    ensures forall fd :: fd in t.open <==> IsHeld(Held(t), fd)
  {
    forall fd | fd in t.open ensures IsHeld(Held(t), fd) {
      var h :| h in t.handles && t.handles[h].On? && t.handles[h].fd == fd;
      assert Held(t)[h] == fd;
    }
  }

  /** Counting refines: over every careful run the handles are on the descriptors the operations, told
      without counts, put them on; exactly the descriptors held are open; and descriptors are closed in
      the order in which they were given up by their last handle. */
  lemma {:induction false} RunRefines<H, C>(sync: bool, t: Table<H, C>, es: seq<Event<H, C>>)
    requires Inv(t) && CarefulRun(sync, t, es)
    ensures var u := Run(sync, t, es);
      && Held(u) == HeldAfterAll(Held(t), es)
      && (forall fd :: fd in u.open <==> IsHeld(Held(u), fd))
      && u.closed == t.closed + ClosedByAll(Held(t), es)
    decreases |es|
  {
    if |es| == 0 {
      OpenIsHeldExactly(t);
    } else {
      var u, m := Stepped(sync, t, es[0]), Held(t);
      StepRefines(sync, t, es[0]);
      RunRefines(sync, u, es[1..]);
      Appended(t.closed, ClosedBy(m, es[0]), ClosedByAll(Held(u), es[1..]));
    }
  }

  lemma Appended(a: seq<int>, b: seq<int>, c: seq<int>)
    ensures a + b + c == a + (b + c)
  {
  }

  /** The descriptors a run puts under management, in order. */
  function Opened<H, C>(es: seq<Event<H, C>>): seq<int> {
    if |es| == 0 then []
    else
      match es[0]
      case Adopt(_, fd, _) => [fd] + Opened(es[1..])
      case Dial(_, Connected(fd, _)) => [fd] + Opened(es[1..])
      case _ => Opened(es[1..])
  }

  function Elements(s: seq<int>): set<int> {
    set x | x in s
  }

  lemma DroppedAccounts<H, C>(t: Table<H, C>, h: H)
    requires Inv(t) && h in t.handles
    ensures Dropped(t, h).open + Elements(Dropped(t, h).closed) == t.open + Elements(t.closed)
  {
  }

  lemma StepAccounts<H, C>(sync: bool, t: Table<H, C>, e: Event<H, C>)
    requires Inv(t) && Possible(sync, t, e) && Careful(sync, t, e)
    ensures var u := Stepped(sync, t, e);
      u.open + Elements(u.closed) == t.open + Elements(t.closed) + Elements(Opened([e]))
  {
    match e
    case Destroy(h) => DroppedAccounts(t, h);
    case Assign(h, src) => DroppedAccounts(t, h);
    case Dial(h, result) => DroppedAccounts(t, h);
    case _ =>
  }

  lemma ElementsAppend(a: seq<int>, b: seq<int>)
    ensures Elements(a + b) == Elements(a) + Elements(b)
  {
    forall x ensures x in Elements(a + b) <==> x in Elements(a) + Elements(b) {
      assert x in a + b <==> x in a || x in b;
    }
  }

  lemma OpenedHead<H, C>(es: seq<Event<H, C>>)
    requires |es| > 0
    ensures Elements(Opened(es)) == Elements(Opened([es[0]])) + Elements(Opened(es[1..]))
  {
    assert [es[0]][1..] == [];
    ElementsAppend(Opened([es[0]]), Opened(es[1..]));
  }

  lemma {:induction false} RunAccounts<H, C>(sync: bool, t: Table<H, C>, es: seq<Event<H, C>>)
    requires Inv(t) && CarefulRun(sync, t, es)
    ensures Run(sync, t, es).open + Elements(Run(sync, t, es).closed)
      == t.open + Elements(t.closed) + Elements(Opened(es))
    decreases |es|
  {
    if |es| > 0 {
      StepAccounts(sync, t, es[0]);
      RunAccounts(sync, Stepped(sync, t, es[0]), es[1..]);
      OpenedHead(es);
    }
  }

  lemma NothingHeld<H, C>(t: Table<H, C>)
    requires Inv(t) && forall h | h in t.handles :: t.handles[h].Off?
    ensures t.open == {} && t.counts == map[]
  {
    forall f ensures f !in t.open {
      assert !HasHandle(t, f);
    }
    forall c ensures c !in t.counts {
      assert Sharers(t, c) == {};
    }
  }

  /** Every careful run from nothing keeps the invariant, and once every handle is off or gone, every
      descriptor it ever managed has been closed, each exactly once, and nothing else has. */
  lemma EveryDescriptorIsClosedOnce<H, C>(sync: bool, es: seq<Event<H, C>>)
    requires CarefulRun(sync, Table(map[], map[], {}, []), es)
    ensures var t := Run(sync, Table(map[], map[], {}, []), es);
      && Inv(t)
      && ((forall h | h in t.handles :: t.handles[h].Off?) ==>
            && t.open == {} && t.counts == map[]
            && Elements(t.closed) == Elements(Opened(es))
            && forall i, j | 0 <= i < j < |t.closed| :: t.closed[i] != t.closed[j])
  {
    RunAccounts<H, C>(sync, Table(map[], map[], {}, []), es);
    var t := Run<H, C>(sync, Table(map[], map[], {}, []), es);
    if forall h | h in t.handles :: t.handles[h].Off? {
      NothingHeld(t);
    }
  }
}

/** The two classes on the heap: a handle's fields and the shared counter it points at are updated in
    place, and every method's effect on all handles is one step of the table. */
module SocketHandles {
  import opened Bytes
  import opened HandleTable

  class Counter {
    var value: int

    constructor ()
      ensures value == 1
    {
      value := 1;
    }
  }

  class Handle {
    var fd: int
    var count: Counter?

    /** No descriptor and no count. */
    constructor ()
      ensures count == null
    {
      fd, count := -1, null;
    }
  }

  /** The kernel's descriptors, and which handles and counters the program holds. */
  class Process {
    var open: set<int>
    var closed: seq<int>
    ghost var handles: set<Handle>
    ghost var counters: set<Counter>

    constructor ()
      ensures View() == Table(map[], map[], {}, []) && Live()
    {
      open, closed := {}, [];
      handles, counters := {}, {};
    }

    ghost function SlotOf(h: Handle): Slot<Counter>
      reads h
    {
      if h.count == null then Off else var c: Counter := h.count; On(h.fd, c)
    }

    ghost function View(): Table<Handle, Counter>
      reads this, handles, counters
    {
      Table(map h | h in handles :: SlotOf(h), map c | c in counters :: c.value, open, closed)
    }

    ghost predicate Live()
      reads this, handles, counters
    {
      SlotsBacked(View())
    }

    /** `close`. */
    method Close(fd: int)
      modifies this
      ensures open == old(open) - {fd} && closed == old(closed) + [fd]
      ensures handles == old(handles) && counters == old(counters)
    {
      open, closed := open - {fd}, closed + [fd];
    }

    /** The start of both destructors and both assignments; `check_close` of sync_socket. */
    method Drop(h: Handle)
      requires h in handles && Live()
      modifies this, h, counters
      ensures View() == Dropped(old(View()), h)
      ensures handles == old(handles) && counters <= old(counters)
    {
      if h.count != null {
        var c: Counter := h.count;
        assert old(View()).handles[h] == On(h.fd, c);
        c.value := c.value - 1;
        if c.value == 0 {
          counters := counters - {c};
          Close(h.fd);
          h.count, h.fd := null, -1;
          assert View().handles == old(View()).handles[h := Off];
          assert View().counts == old(View()).counts - {c};
        } else {
          assert View().handles == old(View()).handles;
          assert View().counts == old(View()).counts[c := c.value];
        }
      }
    }

    /** One more handle on what `src` holds; false for a null dereference. */
    method Share(sync: bool, h: Handle, src: Handle) returns (ok: bool)
      requires h in handles && src in handles
      requires src.count != null ==> src.count in counters
      modifies h, counters
      ensures (if ok then Some(View()) else None) == Shared(sync, old(View()), h, old(View()).handles[src])
    {
      assert old(View()).handles[src] == SlotOf(src);
      h.fd, h.count := src.fd, src.count;
      if h.count != null {
        var c: Counter := h.count;
        c.value := c.value + 1;
        assert View().handles == old(View()).handles[h := old(View()).handles[src]];
        assert View().counts == old(View()).counts[c := c.value];
      } else {
        assert View().handles == old(View()).handles[h := Off];
        assert View().counts == old(View()).counts;
      }
      ok := sync || h.count != null;
    }

    /** The default constructors. */
    method Blank() returns (h: Handle)
      modifies this
      ensures fresh(h) && View() == WithOff(old(View()), h) && counters == old(counters)
      ensures handles == old(handles) + {h}
    {
      h := new Handle();
      handles := handles + {h};
      assert View().handles == old(View()).handles[h := Off];
    }

    /** The copy and move constructors. */
    method Copy(sync: bool, src: Handle) returns (ok: bool, h: Handle)
      requires src in handles && Live()
      modifies this, counters
      ensures fresh(h)
      ensures (if ok then Some(View()) else None) == Copied(sync, old(View()), h, src)
    {
      ghost var t := View();
      assert t.handles[src] == SlotOf(src);
      h := Blank();
      ghost var slot := View().handles[src];
      ok := Share(sync, h, src);
      SharedWithBlank(sync, t, h, slot);
    }

    /** The assignment operators. */
    method Assign(sync: bool, h: Handle, src: Handle) returns (ok: bool)
      requires h in handles && src in handles && Inv(View())
      modifies this, h, counters
      ensures (if ok then Some(View()) else None) == Assigned(sync, old(View()), h, src)
    {
      ghost var t := View();
      DetachedInv(t, h);
      Drop(h);
      AssignExact(sync, t, h, src);
      assert View().handles[src] == SlotOf(src);
      ok := Share(sync, h, src);
    }

    /** The destructors. */
    method Destroy(h: Handle)
      requires h in handles && Live()
      modifies this, h, counters
      ensures View() == Destroyed(old(View()), h)
    {
      Drop(h);
      ghost var v := View();
      handles := handles - {h};
      assert View().handles == v.handles - {h};
    }

    /** `sync_socket::connect`, given how the attempts go; false when it throws. `fd` is the number of
        the last attempt. */
    method Connect(h: Handle, success: bool, fd: int) returns (ok: bool, ghost result: Attempt<Counter>)
      requires h in handles && Live()
      modifies this, h, counters
      ensures ok == success
      ensures if ok then result.Connected? && result.fd == fd && fresh(result.count) else result == Failed(fd)
      ensures View() == HandleTable.Connect(old(View()), h, result)
    {
      Drop(h);
      ghost var d := View();
      if success {
        ghost var c := TakeOver(h, fd);
        result := Connected(fd, c);
      } else {
        h.fd := fd;
        result := Failed(fd);
        assert View().counts == d.counts;
        assert View().handles == if d.handles[h].On? then d.handles[h := On(fd, d.handles[h].count)] else d.handles;
      }
      ok := success;
    }

    /** Point a handle at a descriptor just opened, with a new count. */
    method TakeOver(h: Handle, fd: int) returns (ghost c: Counter)
      requires h in handles
      modifies this, h
      ensures fresh(c) && View() == Manage(old(View()), h, fd, c)
    {
      var n := new Counter();
      h.fd, h.count, c := fd, n, n;
      open, counters := open + {fd}, counters + {n};
      assert View().handles == old(View()).handles[h := On(fd, n)];
      assert View().counts == old(View()).counts[n := 1];
    }

    /** The constructors that manage a descriptor already open. */
    method Adopt(fd: int) returns (h: Handle, ghost c: Counter)
      modifies this
      ensures fresh(h) && fresh(c) && View() == Manage(old(View()), h, fd, c)
    {
      ghost var t := View();
      h := Blank();
      c := TakeOver(h, fd);
      assert t.handles[h := Off][h := On(fd, c)] == t.handles[h := On(fd, c)];
    }
  }
}
