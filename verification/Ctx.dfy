/**
 Context lifetime (socket.c): nni_ctx_open, nni_ctx_find, nni_ctx_close, nni_ctx_rele and the context loop of
 nni_sock_shutdown. Each region that holds sock_lk or s_mx is one step; any number of threads interleave.
 */
module Ctx {
  import opened Wrappers

  /** c_id, c_sock, c_ref and c_closed */
  datatype Ctx = Ctx(id: nat, sock: nat, ref: int, closed: bool)

  /** Where a thread that has a reference stands. */
  datatype Stage =
    | Opening    // nni_ctx_open made the context and has not looked at s_closing yet
    | Held
    | Closing    // nni_ctx_close marked the context and will release it
    | Refused    // nni_ctx_open saw s_closing and will release it

  datatype Hold = Hold(obj: nat, stage: Stage)

  datatype State = State(
    ctxs: map<nat, Ctx>,        // allocated contexts, numbered as they are made
    made: nat,
    ids: map<nat, nat>,         // ctx_ids
    lists: map<nat, seq<nat>>,  // s_ctxs of every socket
    holds: map<nat, Hold>,
    dying: multiset<nat>,       // unlinked, about to be destroyed outside the lock
    destroyed: multiset<nat>,   // every call of nni_ctx_destroy
    closing: set<nat>,          // sockets with s_closing
    shut: set<nat>)             // sockets with s_closed

  datatype Step =
    | Open(sock: nat, id: nat, h: nat) | Check(h: nat) | Find(id: nat, closing: bool, h: nat)
    | Mark(h: nat) | Rele(h: nat) | Destroy(obj: nat)
    | Shutdown(sock: nat) | MarkAll(sock: nat) | Shut(sock: nat)

  function Strike(q: seq<nat>, o: nat): seq<nat> {
    if q == [] then [] else if q[0] == o then Strike(q[1..], o) else [q[0]] + Strike(q[1..], o)
  }

  /** The steps a thread can take; the table hands out only identifiers that are not in use. */
  ghost predicate Enabled(s: State, e: Step)
    requires Inv(s)
  {
    match e
    case Open(k, id, h) => k in s.lists && k !in s.shut && id !in s.ids && h !in s.holds
    case Check(h) => h in s.holds && s.holds[h].stage.Opening?
    case Find(id, closing, h) => id in s.ids && h !in s.holds && Findable(s, s.ctxs[s.ids[id]], closing)
    case Mark(h) => h in s.holds && s.holds[h].stage.Held?
    case Rele(h) => h in s.holds && !s.holds[h].stage.Opening?
    case Destroy(o) => o in s.dying
    case Shutdown(k) => k in s.lists
    case MarkAll(k) => k in s.lists && k in s.closing
    case Shut(k) => k in s.closing
  }

  /** A reference is refused on a closed context, and on a closed socket unless it is wanted for closing. */
  predicate Findable(s: State, c: Ctx, closing: bool) {
    !c.closed && (closing || c.sock !in s.shut)
  }

  ghost function OpenCtx(s: State, k: nat, id: nat, h: nat): State
    requires k in s.lists
  {
    s.(ctxs := s.ctxs[s.made := Ctx(id, k, 1, false)], made := s.made + 1, ids := s.ids[id := s.made],
       lists := s.lists[k := s.lists[k] + [s.made]], holds := s.holds[h := Hold(s.made, Opening)])
  }

  function Unlink(s: State, o: nat): State
    requires o in s.ctxs && s.ctxs[o].sock in s.lists
  {
    var c := s.ctxs[o];
    s.(ids := s.ids - {c.id}, lists := s.lists[c.sock := Strike(s.lists[c.sock], o)])
  }

  ghost function ReleCtx(s: State, h: nat): State
    requires h in s.holds && s.holds[h].obj in s.ctxs && s.ctxs[s.holds[h].obj].sock in s.lists
  {
    var o := s.holds[h].obj;
    var c := s.ctxs[o].(ref := s.ctxs[o].ref - 1);
    var t := s.(ctxs := s.ctxs[o := c], holds := s.holds - {h});
    if c.ref > 0 || !c.closed then t else Unlink(t, o).(dying := s.dying + multiset{o})
  }

  function DestroyCtx(s: State, o: nat): State {
    s.(ctxs := s.ctxs - {o}, dying := s.dying - multiset{o}, destroyed := s.destroyed + multiset{o})
  }

  /** One round of the loop in nni_sock_shutdown: destroyed under the lock when nobody has a reference. */
  function MarkOne(s: State, o: nat): State
    requires o in s.ctxs && s.ctxs[o].sock in s.lists
  {
    var t := s.(ctxs := s.ctxs[o := s.ctxs[o].(closed := true)]);
    if s.ctxs[o].ref == 0 then DestroyCtx(Unlink(t, o), o) else t
  }

  /** What is left to the loop: contexts of one socket, each once. */
  ghost predicate Walkable(s: State, k: nat, q: seq<nat>) {
    k in s.lists && Distinct(q) && forall o :: o in q ==> o in s.ctxs && s.ctxs[o].sock == k
  }

  ghost predicate Distinct(q: seq<nat>) {
    forall i, j :: 0 <= i < j < |q| ==> q[i] != q[j]
  }

  ghost function MarkEach(s: State, k: nat, q: seq<nat>): State
    requires Walkable(s, k, q)
    decreases |q|
  {
    if q == [] then s else
      assert q[0] in q;
      MarkEach(MarkOne(s, q[0]), k, q[1..])
  }

  ghost function Next(s: State, e: Step): State
    requires Inv(s) && Enabled(s, e)
  {
    match e
    case Open(k, id, h) => OpenCtx(s, k, id, h)
    case Check(h) =>
      var o := s.holds[h].obj;
      s.(holds := s.holds[h := Hold(o, if s.ctxs[o].sock in s.closing then Refused else Held)])
    case Find(id, _, h) =>
      var o := s.ids[id];
      s.(ctxs := s.ctxs[o := s.ctxs[o].(ref := s.ctxs[o].ref + 1)], holds := s.holds[h := Hold(o, Held)])
    case Mark(h) =>
      var o := s.holds[h].obj;
      s.(ctxs := s.ctxs[o := s.ctxs[o].(closed := true)], holds := s.holds[h := Hold(o, Closing)])
    case Rele(h) => ReleCtx(s, h)
    case Destroy(o) => DestroyCtx(s, o)
    case Shutdown(k) => s.(closing := s.closing + {k})
    case MarkAll(k) => MarkEach(s, k, s.lists[k])
    case Shut(k) => s.(shut := s.shut + {k})
  }

  // ---- what every step keeps ----

  ghost function Holders(holds: map<nat, Hold>, o: nat): set<nat> {
    set h | h in holds && holds[h].obj == o
  }

  ghost predicate Linked(s: State, o: nat) {
    o in s.ctxs && o !in s.dying
  }

  /** Nothing is destroyed twice, and what is about to be destroyed is closed and unreferenced. */
  ghost predicate Lives(s: State) {
    && (forall o :: o in s.ctxs ==> o < s.made && s.destroyed[o] == 0)
    && (forall o :: o in s.destroyed ==> s.destroyed[o] == 1 && o < s.made)
    && (forall o :: o in s.dying ==> s.dying[o] == 1 && o in s.ctxs && s.ctxs[o].closed && s.ctxs[o].ref == 0)
    && (forall o :: Linked(s, o) && s.ctxs[o].closed ==> s.ctxs[o].ref > 0)
  }

  /** Every reference is to a linked context, and c_ref counts them. */
  ghost predicate Counted(s: State) {
    && (forall h :: h in s.holds ==> Linked(s, s.holds[h].obj))
    && (forall o :: o in s.ctxs ==> s.ctxs[o].ref == |Holders(s.holds, o)|)
  }

  /** The identifier table holds exactly the linked contexts. */
  ghost predicate Tabled(s: State) {
    && (forall o :: Linked(s, o) ==> s.ctxs[o].id in s.ids && s.ids[s.ctxs[o].id] == o)
    && (forall i :: i in s.ids ==> Linked(s, s.ids[i]) && s.ctxs[s.ids[i]].id == i)
  }

  /** The sockets' lists hold exactly the linked contexts, each once. */
  ghost predicate Listed(s: State) {
    && (forall o :: Linked(s, o) ==> s.ctxs[o].sock in s.lists && o in s.lists[s.ctxs[o].sock])
    && (forall k :: k in s.lists ==> ListOk(s, k))
  }

  ghost predicate ListOk(s: State, k: nat)
    requires k in s.lists
  {
    Distinct(s.lists[k]) && forall o :: o in s.lists[k] ==> Linked(s, o) && s.ctxs[o].sock == k
  }

  ghost predicate Inv(s: State) {
    Lives(s) && Counted(s) && Tabled(s) && Listed(s)
  }

  lemma {:induction false} StrikeMembers(q: seq<nat>, o: nat)
    requires Distinct(q)
    ensures Distinct(Strike(q, o)) && forall x :: x in Strike(q, o) <==> x in q && x != o
  {
    if q != [] {
      assert q == [q[0]] + q[1..];
      StrikeMembers(q[1..], o);
      assert q[0] !in q[1..];
    }
  }

  // ---- opening, finding and marking ----

  lemma HoldAdded(holds: map<nat, Hold>, h: nat, k: Hold, o: nat)
    requires h !in holds
    ensures |Holders(holds[h := k], o)| == |Holders(holds, o)| + if k.obj == o then 1 else 0
  {
    assert Holders(holds[h := k], o) == if k.obj == o then Holders(holds, o) + {h} else Holders(holds, o);
  }

  lemma HoldMoved(holds: map<nat, Hold>, h: nat, stage: Stage, o: nat)
    requires h in holds
    ensures Holders(holds[h := Hold(holds[h].obj, stage)], o) == Holders(holds, o)
  {
  }

  lemma HoldDropped(holds: map<nat, Hold>, h: nat, o: nat)
    requires h in holds
    ensures |Holders(holds - {h}, o)| == |Holders(holds, o)| - if holds[h].obj == o then 1 else 0
  {
    assert Holders(holds - {h}, o) == Holders(holds, o) - {h};
  }

  lemma NoHolder(s: State, o: nat)
    requires Lives(s) && Counted(s) && o !in s.ctxs
    ensures Holders(s.holds, o) == {}
  {
  }

  lemma Fresh(s: State)
    requires Lives(s)
    ensures s.made !in s.ctxs && s.made !in s.dying && s.made !in s.destroyed
  {
  }

  lemma OpenCounts(s: State, k: nat, id: nat, h: nat)
    requires Lives(s) && Counted(s) && k in s.lists && h !in s.holds
    ensures Counted(OpenCtx(s, k, id, h))
  {
    hide Holders, Lives;
    var t := OpenCtx(s, k, id, h);
    Fresh(s);
    NoHolder(s, s.made);
    forall o | o in t.ctxs ensures t.ctxs[o].ref == |Holders(t.holds, o)| {
      HoldAdded(s.holds, h, Hold(s.made, Opening), o);
    }
  }

  lemma OpenLists(s: State, k: nat, id: nat, h: nat)
    requires Lives(s) && Listed(s) && k in s.lists
    ensures Listed(OpenCtx(s, k, id, h))
  {
    var t := OpenCtx(s, k, id, h);
    Fresh(s);
    assert forall j :: j in s.lists ==> ListOk(s, j);
    assert s.made !in s.lists[k];
    forall j | j in t.lists ensures ListOk(t, j) { assert ListOk(s, j); }
  }

  lemma OpenTable(s: State, k: nat, id: nat, h: nat)
    requires Lives(s) && Tabled(s) && k in s.lists && id !in s.ids
    ensures Tabled(OpenCtx(s, k, id, h))
  {
    Fresh(s);
  }

  lemma OpenLives(s: State, k: nat, id: nat, h: nat)
    requires Lives(s) && k in s.lists
    ensures Lives(OpenCtx(s, k, id, h))
  {
    Fresh(s);
  }

  lemma OpenKeeps(s: State, k: nat, id: nat, h: nat)
    requires Inv(s) && k in s.lists && id !in s.ids && h !in s.holds
    ensures Inv(OpenCtx(s, k, id, h))
  {
    hide Lives, Counted, Tabled, Listed, OpenCtx;
    OpenLives(s, k, id, h);
    OpenTable(s, k, id, h);
    OpenCounts(s, k, id, h);
    OpenLists(s, k, id, h);
  }

  /** Changing c_ref or c_closed leaves the table and the lists right. */
  lemma TableKept(s: State, t: State, o: nat, c: Ctx)
    requires Tabled(s) && Listed(s) && o in s.ctxs && t.ctxs == s.ctxs[o := c]
    requires c.id == s.ctxs[o].id && c.sock == s.ctxs[o].sock
    requires t.ids == s.ids && t.lists == s.lists && t.dying == s.dying
    ensures Tabled(t) && Listed(t)
  {
    forall k | k in t.lists ensures ListOk(t, k) { assert ListOk(s, k); }
  }

  lemma HolderFacts(s: State, h: nat)
    requires Inv(s) && h in s.holds
    ensures var o := s.holds[h].obj;
            Linked(s, o) && s.ctxs[o].ref == |Holders(s.holds, o)| > 0 && s.ctxs[o].sock in s.lists
  {
    assert h in Holders(s.holds, s.holds[h].obj);
  }

  /** A step that only moves a thread from one stage to another. */
  lemma StageKeeps(s: State, h: nat, stage: Stage)
    requires Inv(s) && h in s.holds
    ensures Inv(s.(holds := s.holds[h := Hold(s.holds[h].obj, stage)]))
  {
    hide Tabled, Listed, Lives, Holders;
    var t := s.(holds := s.holds[h := Hold(s.holds[h].obj, stage)]);
    HolderFacts(s, h);
    var o := s.holds[h].obj;
    assert t.ctxs == s.ctxs[o := s.ctxs[o]];
    TableKept(s, t, o, s.ctxs[o]);
    LivesKept(s, t, o, s.ctxs[o]);
    forall p | p in t.ctxs ensures t.ctxs[p].ref == |Holders(t.holds, p)| { HoldMoved(s.holds, h, stage, p); }
  }

  lemma LivesKept(s: State, t: State, o: nat, c: Ctx)
    requires Lives(s) && Linked(s, o) && t.ctxs == s.ctxs[o := c] && (c.closed ==> c.ref > 0)
    requires t.dying == s.dying && t.destroyed == s.destroyed && t.made == s.made
    ensures Lives(t)
  {
  }

  lemma FindKeeps(s: State, o: nat, h: nat)
    requires Inv(s) && Linked(s, o) && h !in s.holds
    ensures Inv(s.(ctxs := s.ctxs[o := s.ctxs[o].(ref := s.ctxs[o].ref + 1)], holds := s.holds[h := Hold(o, Held)]))
  {
    hide Tabled, Listed, Lives, Holders;
    var t := s.(ctxs := s.ctxs[o := s.ctxs[o].(ref := s.ctxs[o].ref + 1)], holds := s.holds[h := Hold(o, Held)]);
    assert s.ctxs[o].ref == |Holders(s.holds, o)|;
    TableKept(s, t, o, t.ctxs[o]);
    LivesKept(s, t, o, t.ctxs[o]);
    forall p | p in t.ctxs ensures t.ctxs[p].ref == |Holders(t.holds, p)| { HoldAdded(s.holds, h, Hold(o, Held), p); }
  }

  /** Whoever marks a context has a reference to it. */
  lemma MarkKeeps(s: State, o: nat)
    requires Inv(s) && Linked(s, o) && s.ctxs[o].ref > 0
    ensures Inv(s.(ctxs := s.ctxs[o := s.ctxs[o].(closed := true)]))
  {
    hide Tabled, Listed, Lives, Holders;
    var t := s.(ctxs := s.ctxs[o := s.ctxs[o].(closed := true)]);
    TableKept(s, t, o, t.ctxs[o]);
    LivesKept(s, t, o, t.ctxs[o]);
  }

  // ---- releasing and destroying ----

  lemma UnlinkTable(s: State, t: State, o: nat, c: Ctx)
    requires Tabled(s) && Listed(s) && Linked(s, o) && s.ctxs[o].sock in s.lists
    requires c.id == s.ctxs[o].id && c.sock == s.ctxs[o].sock
    requires t.ids == s.ids - {c.id} && t.lists == s.lists[c.sock := Strike(s.lists[c.sock], o)]
    requires forall p :: Linked(t, p) <==> Linked(s, p) && p != o
    requires forall p :: Linked(t, p) ==> t.ctxs[p] == s.ctxs[p]
    ensures Tabled(t) && Listed(t)
  {
    assert ListOk(s, c.sock);
    StrikeMembers(s.lists[c.sock], o);
    forall k | k in t.lists ensures ListOk(t, k) { assert ListOk(s, k); }
  }

  /** A reference that does not free the context. */
  lemma ReleStays(s: State, h: nat)
    requires Inv(s) && h in s.holds && Linked(s, s.holds[h].obj) && s.ctxs[s.holds[h].obj].sock in s.lists
    requires s.ctxs[s.holds[h].obj].ref > 1 || !s.ctxs[s.holds[h].obj].closed
    ensures Inv(ReleCtx(s, h))
  {
    hide Tabled, Listed, Lives, Holders;
    var t := ReleCtx(s, h);
    var o := s.holds[h].obj;
    TableKept(s, t, o, t.ctxs[o]);
    LivesKept(s, t, o, t.ctxs[o]);
    forall p | p in t.ctxs ensures t.ctxs[p].ref == |Holders(t.holds, p)| { HoldDropped(s.holds, h, p); }
  }

  /** The last reference to a closed context. */
  lemma ReleLast(s: State, h: nat)
    requires Inv(s) && h in s.holds && Linked(s, s.holds[h].obj) && s.ctxs[s.holds[h].obj].sock in s.lists
    requires s.ctxs[s.holds[h].obj].ref == 1 && s.ctxs[s.holds[h].obj].closed
    ensures Inv(ReleCtx(s, h))
  {
    hide Tabled, Listed, Counted, Lives, Holders;
    var t := ReleCtx(s, h);
    var o := s.holds[h].obj;
    UnlinkTable(s, t, o, s.ctxs[o]);
    DyingLives(s, t, o);
    LastCounts(s, t, h);
  }

  lemma DyingLives(s: State, t: State, o: nat)
    requires Lives(s) && Linked(s, o) && s.ctxs[o].closed && t.ctxs == s.ctxs[o := s.ctxs[o].(ref := 0)]
    requires t.dying == s.dying + multiset{o} && t.destroyed == s.destroyed && t.made == s.made
    ensures Lives(t)
  {
  }

  lemma LastCounts(s: State, t: State, h: nat)
    requires Counted(s) && h in s.holds && s.holds[h].obj in s.ctxs && s.ctxs[s.holds[h].obj].ref == 1
    requires t.ctxs == s.ctxs[s.holds[h].obj := s.ctxs[s.holds[h].obj].(ref := 0)] && t.holds == s.holds - {h}
    requires t.dying == s.dying + multiset{s.holds[h].obj}
    ensures Counted(t)
  {
    var o := s.holds[h].obj;
    OnlyHolder(s, h);
    forall p | p in t.ctxs ensures t.ctxs[p].ref == |Holders(t.holds, p)| { HoldDropped(s.holds, h, p); }
    forall g | g in t.holds ensures Linked(t, t.holds[g].obj) { assert Linked(s, t.holds[g].obj); }
  }

  lemma OnlyHolder(s: State, h: nat)
    requires Counted(s) && h in s.holds && s.holds[h].obj in s.ctxs && s.ctxs[s.holds[h].obj].ref == 1
    ensures forall g :: g in s.holds && g != h ==> s.holds[g].obj != s.holds[h].obj
  {
    var o := s.holds[h].obj;
    var all := Holders(s.holds, o);
    assert h in all && |all - {h}| == 0;
    forall g | g in s.holds && g != h ensures s.holds[g].obj != o { assert g !in all - {h}; }
  }

  lemma ReleKeeps(s: State, h: nat)
    requires Inv(s) && h in s.holds
    ensures s.holds[h].obj in s.ctxs && s.ctxs[s.holds[h].obj].sock in s.lists && Inv(ReleCtx(s, h))
  {
    hide Lives, Counted, Tabled, Listed, Holders, ReleCtx;
    HolderFacts(s, h);
    if s.ctxs[s.holds[h].obj].ref > 1 || !s.ctxs[s.holds[h].obj].closed {
      ReleStays(s, h);
    } else {
      ReleLast(s, h);
    }
  }

  lemma DestroyLives(s: State, o: nat)
    requires Lives(s) && o in s.dying
    ensures Lives(DestroyCtx(s, o)) && forall p :: Linked(DestroyCtx(s, o), p) <==> Linked(s, p)
  {
    assert s.dying[o] == 1;
  }

  /** Freeing what is not linked any more touches neither table, lists nor references. */
  lemma UnlinkedGone(s: State, t: State)
    requires Counted(s) && Tabled(s) && Listed(s) && t.ids == s.ids && t.lists == s.lists && t.holds == s.holds
    requires forall p :: Linked(t, p) <==> Linked(s, p)
    requires forall p :: p in t.ctxs ==> p in s.ctxs && t.ctxs[p] == s.ctxs[p]
    ensures Counted(t) && Tabled(t) && Listed(t)
  {
    hide Holders;
    forall k | k in t.lists ensures ListOk(t, k) { assert ListOk(s, k); }
  }

  lemma DestroyKeeps(s: State, o: nat)
    requires Inv(s) && o in s.dying
    ensures Inv(DestroyCtx(s, o))
  {
    hide Lives, Counted, Tabled, Listed, Linked;
    DestroyLives(s, o);
    UnlinkedGone(s, DestroyCtx(s, o));
  }

  // ---- the loop in nni_sock_shutdown ----

  lemma MarkOneKeeps(s: State, o: nat)
    requires Inv(s) && Linked(s, o) && s.ctxs[o].sock in s.lists
    ensures Inv(MarkOne(s, o))
  {
    hide Lives, Counted, Tabled, Listed, Holders;
    IdleOrHeld(s, o);
    if s.ctxs[o].ref == 0 {
      var t := MarkOne(s, o);
      MarkedLives(s, o);
      UnlinkTable(s, t, o, s.ctxs[o]);
      MarkedCounts(s, t, o);
    } else {
      MarkKeeps(s, o);
    }
  }

  lemma IdleOrHeld(s: State, o: nat)
    requires Inv(s) && o in s.ctxs
    ensures s.ctxs[o].ref == |Holders(s.holds, o)| && o < s.made
  {
  }

  lemma MarkedLives(s: State, o: nat)
    requires Lives(s) && Linked(s, o) && s.ctxs[o].sock in s.lists && s.ctxs[o].ref == 0
    ensures Lives(MarkOne(s, o))
    ensures forall p :: Linked(MarkOne(s, o), p) <==> Linked(s, p) && p != o
  {
    assert s.destroyed[o] == 0;
  }

  lemma MarkedCounts(s: State, t: State, o: nat)
    requires Counted(s) && o in s.ctxs && s.ctxs[o].ref == 0 && t.ctxs == s.ctxs - {o} && t.holds == s.holds
    requires forall p :: Linked(t, p) <==> Linked(s, p) && p != o
    ensures Counted(t)
  {
    assert Holders(s.holds, o) == {};
    forall h | h in t.holds ensures Linked(t, t.holds[h].obj) { assert h !in Holders(s.holds, o); }
  }

  /** The round for one context leaves the others alone. */
  lemma MarkOneOthers(s: State, o: nat, p: nat)
    requires Inv(s) && Linked(s, o) && s.ctxs[o].sock in s.lists && p != o
    ensures var t := MarkOne(s, o);
      (p in t.ctxs <==> p in s.ctxs) && (p in s.ctxs ==> t.ctxs[p] == s.ctxs[p]) && (Linked(t, p) <==> Linked(s, p)) &&
      t.destroyed[p] == s.destroyed[p]
  {
    hide Inv, Lives, Counted, Tabled, Listed, Strike;
  }

  /** What the loop does to a context: with references it is closed, without it is destroyed. */
  ghost predicate MarkedIn(s: State, t: State, o: nat)
    requires o in s.ctxs
  {
    if s.ctxs[o].ref == 0 then o !in t.ctxs && t.destroyed[o] == 1
    else Linked(t, o) && t.ctxs[o] == s.ctxs[o].(closed := true)
  }

  lemma MarkOneMarks(s: State, o: nat)
    requires Inv(s) && Linked(s, o) && s.ctxs[o].sock in s.lists
    ensures MarkedIn(s, MarkOne(s, o), o)
  {
    hide Counted, Tabled, Listed;
    assert s.destroyed[o] == 0;
  }

  ghost predicate Ready(s: State, k: nat, q: seq<nat>) {
    Inv(s) && Walkable(s, k, q) && forall o :: o in q ==> Linked(s, o)
  }

  lemma RestReady(s: State, k: nat, q: seq<nat>)
    requires Ready(s, k, q) && q != []
    ensures Linked(s, q[0]) && k in s.lists && s.ctxs[q[0]].sock == k && Ready(MarkOne(s, q[0]), k, q[1..])
  {
    hide Inv;
    assert q[0] in q;
    MarkOneKeeps(s, q[0]);
    forall o | o in q[1..]
      ensures Linked(MarkOne(s, q[0]), o) && MarkOne(s, q[0]).ctxs[o].sock == k
    {
      assert o in q && o != q[0];
      MarkOneOthers(s, q[0], o);
    }
  }

  lemma ReadyAtStart(s: State, k: nat)
    requires Inv(s) && k in s.lists
    ensures Ready(s, k, s.lists[k])
  {
    assert ListOk(s, k);
  }

  lemma {:induction false} MarkEachKeeps(s: State, k: nat, q: seq<nat>)
    requires Ready(s, k, q)
    ensures Inv(MarkEach(s, k, q)) && k in MarkEach(s, k, q).lists
    decreases |q|
  {
    hide Inv, MarkOne;
    if q != [] {
      RestReady(s, k, q);
      MarkEachKeeps(MarkOne(s, q[0]), k, q[1..]);
    }
  }

  lemma {:induction false} MarkEachOthers(s: State, k: nat, q: seq<nat>, p: nat)
    requires Ready(s, k, q) && p !in q
    ensures var t := MarkEach(s, k, q);
      (p in t.ctxs <==> p in s.ctxs) && (p in s.ctxs ==> t.ctxs[p] == s.ctxs[p]) && (Linked(t, p) <==> Linked(s, p)) &&
      t.destroyed[p] == s.destroyed[p]
    decreases |q|
  {
    hide Inv, MarkOne;
    if q != [] {
      RestReady(s, k, q);
      assert q[0] in q;
      MarkOneOthers(s, q[0], p);
      MarkEachOthers(MarkOne(s, q[0]), k, q[1..], p);
    }
  }

  lemma {:induction false} MarkEachMarks(s: State, k: nat, q: seq<nat>, o: nat)
    requires Ready(s, k, q) && o in q
    ensures MarkedIn(s, MarkEach(s, k, q), o)
    decreases |q|
  {
    hide Inv, MarkOne;
    RestReady(s, k, q);
    assert Linked(s, o);
    var t := MarkOne(s, q[0]);
    if o == q[0] {
      MarkOneMarks(s, o);
      assert o !in q[1..];
      MarkEachOthers(t, k, q[1..], o);
    } else {
      MarkOneOthers(s, q[0], o);
      MarkEachMarks(t, k, q[1..], o);
    }
  }

  /** nni_list_next on a socket's list */
  function NextOn(q: seq<nat>, o: nat): Option<nat> {
    if |q| < 2 then None else if q[0] == o then Some(q[1]) else NextOn(q[1..], o)
  }

  function FirstOf(q: seq<nat>): Option<nat> {
    if q == [] then None else Some(q[0])
  }

  lemma {:induction false} NextIs(q: seq<nat>, i: nat)
    requires Distinct(q) && i < |q|
    ensures NextOn(q, q[i]) == FirstOf(q[i + 1..])
  {
    if i > 0 {
      assert q[0] != q[i] && q[1..][i - 1] == q[i] && q[1..][i..] == q[i + 1..];
      NextIs(q[1..], i - 1);
    }
  }

  /** The loop of nni_sock_shutdown: the next context is read before this one can leave the list. */
  method MarkContexts(s: State, k: nat) returns (t: State)
    requires Inv(s) && k in s.lists
    ensures Ready(s, k, s.lists[k]) && t == MarkEach(s, k, s.lists[k])
  {
    hide Inv, MarkOne, Distinct, NextOn;
    ReadyAtStart(s, k);
    t := s;
    ghost var i := 0;
    var nctx := FirstOf(t.lists[k]);
    assert s.lists[k][0..] == s.lists[k];
    while nctx.Some?
      invariant k in t.lists && i <= |t.lists[k]| && Ready(t, k, t.lists[k][i..])
      invariant nctx == FirstOf(t.lists[k][i..])
      invariant MarkEach(t, k, t.lists[k][i..]) == MarkEach(s, k, s.lists[k])
      decreases |t.lists[k]| - i
    {
      ghost var q := t.lists[k][i..];
      var ctx := nctx.value;
      assert ctx == t.lists[k][i] == q[0];
      RestReady(t, k, q);
      MarkOneRest(t, k, i);
      nctx := NextOn(t.lists[k], ctx);
      ghost var idle := t.ctxs[ctx].ref == 0;
      t := MarkOne(t, ctx);
      if !idle { i := i + 1; }
    }
  }

  /** What is left of the list behind this context is the same, whether or not it stays on the list. */
  lemma MarkOneRest(s: State, k: nat, i: nat)
    requires Inv(s) && k in s.lists && i < |s.lists[k]|
    requires Linked(s, s.lists[k][i]) && s.ctxs[s.lists[k][i]].sock == k
    ensures NextOn(s.lists[k], s.lists[k][i]) == FirstOf(s.lists[k][i + 1..])
    ensures k in MarkOne(s, s.lists[k][i]).lists
    ensures s.ctxs[s.lists[k][i]].ref != 0 ==> MarkOne(s, s.lists[k][i]).lists == s.lists
    ensures s.ctxs[s.lists[k][i]].ref == 0 ==>
              var left := MarkOne(s, s.lists[k][i]).lists[k];
              |left| == |s.lists[k]| - 1 && left[i..] == s.lists[k][i + 1..]
  {
    hide Lives, Counted, Tabled;
    assert ListOk(s, k);
    StrikeAt(s.lists[k], i);
    NextIs(s.lists[k], i);
  }

  lemma {:induction false} StrikeAt(q: seq<nat>, i: nat)
    requires Distinct(q) && i < |q|
    ensures Strike(q, q[i]) == q[..i] + q[i + 1..]
  {
    if i == 0 {
      StrikeAbsent(q[1..], q[0]);
    } else {
      StrikeAt(q[1..], i - 1);
      assert q[1..][..i - 1] + q[1..][i..] == q[1..i] + q[i + 1..];
    }
  }

  lemma {:induction false} StrikeAbsent(q: seq<nat>, o: nat)
    requires o !in q
    ensures Strike(q, o) == q
  {
    if q != [] { StrikeAbsent(q[1..], o); }
  }

  // ---- runs ----

  lemma StepKeeps(s: State, e: Step)
    requires Inv(s) && Enabled(s, e)
    ensures Inv(Next(s, e))
  {
    hide Lives, Counted, Holders, OpenCtx, ReleCtx, DestroyCtx, MarkOne;
    match e
    case Open(k, id, h) => OpenKeeps(s, k, id, h);
    case Check(h) =>
      HolderFacts(s, h);
      StageKeeps(s, h, if s.ctxs[s.holds[h].obj].sock in s.closing then Refused else Held);
    case Find(id, _, h) => FindKeeps(s, s.ids[id], h);
    case Mark(h) => MarkHeld(s, h);
    case Rele(h) => ReleKeeps(s, h);
    case Destroy(o) => DestroyKeeps(s, o);
    case MarkAll(k) => ReadyAtStart(s, k); MarkEachKeeps(s, k, s.lists[k]);
    case Shutdown(k) => SocketsKeep(s, Next(s, e));
    case Shut(k) => SocketsKeep(s, Next(s, e));
  }

  lemma SocketsKeep(s: State, t: State)
    requires Inv(s) && t == s.(closing := t.closing, shut := t.shut)
    ensures Inv(t)
  {
    assert forall o :: Linked(s, o) == Linked(t, o);
    UnlinkedGone(s, t);
  }

  lemma MarkHeld(s: State, h: nat)
    requires Inv(s) && h in s.holds
    ensures s.holds[h].obj in s.ctxs
    ensures var o := s.holds[h].obj;
            Inv(s.(ctxs := s.ctxs[o := s.ctxs[o].(closed := true)], holds := s.holds[h := Hold(o, Closing)]))
  {
    hide Lives, Counted, Tabled, Listed, Holders;
    HolderFacts(s, h);
    StageKeeps(s, h, Closing);
    MarkKeeps(s.(holds := s.holds[h := Hold(s.holds[h].obj, Closing)]), s.holds[h].obj);
  }

  /** Runs never leave the invariant, which is what makes every look at a context in a step safe. */
  ghost predicate Run(s: State, es: seq<Step>, t: State)
    requires Inv(s)
    decreases |es|
  {
    if es == [] then t == s else
      Enabled(s, es[0]) && (StepKeeps(s, es[0]); Run(Next(s, es[0]), es[1..], t))
  }

  ghost predicate Init(s: State) {
    && s.ctxs == map[] && s.ids == map[] && s.holds == map[] && s.dying == multiset{} && s.destroyed == multiset{}
    && s.closing == {} && s.shut == {} && s.made == 0 && forall k :: k in s.lists ==> s.lists[k] == []
  }

  lemma InitInv(s: State)
    requires Init(s)
    ensures Inv(s)
  {
    forall k | k in s.lists ensures ListOk(s, k) { assert s.lists[k] == []; }
  }

  lemma {:induction false} RunKeeps(s: State, es: seq<Step>, t: State)
    requires Inv(s) && Run(s, es, t)
    ensures Inv(t)
    decreases |es|
  {
    hide Inv, Enabled, Next;
    if es != [] {
      StepKeeps(s, es[0]);
      RunKeeps(Next(s, es[0]), es[1..], t);
    }
  }

  // ---- the promises ----

  /** In every reachable state c_ref is the number of references held, and nobody holds a freed context. */
  lemma ReferencesCounted(s: State, es: seq<Step>, t: State)
    requires Init(s) && Inv(s) && Run(s, es, t)
    ensures forall o :: o in t.ctxs ==> t.ctxs[o].ref == |Holders(t.holds, o)|
    ensures forall h :: h in t.holds ==>
              var o := t.holds[h].obj; o in t.ctxs && o !in t.dying && t.destroyed[o] == 0
  {
    hide Run;
    RunKeeps(s, es, t);
    assert forall h :: h in t.holds ==> Linked(t, t.holds[h].obj);
  }

  /** A context is destroyed at most once, and then neither the table, a list nor a thread refers to it. */
  lemma DestroyedOnce(s: State, es: seq<Step>, t: State, o: nat)
    requires Init(s) && Inv(s) && Run(s, es, t) && o in t.destroyed
    ensures t.destroyed[o] == 1 && o !in t.ctxs && o !in t.dying
    ensures forall i :: i in t.ids ==> t.ids[i] != o
    ensures forall k :: k in t.lists ==> o !in t.lists[k]
    ensures forall h :: h in t.holds ==> t.holds[h].obj != o
  {
    hide Run;
    RunKeeps(s, es, t);
    forall k | k in t.lists ensures o !in t.lists[k] { assert ListOk(t, k); }
  }

  /** Only a context that nobody refers to is destroyed: a closed one, or one the shutdown loop is closing. */
  lemma DestroysOnlyIdle(s: State, e: Step, o: nat)
    requires Inv(s) && Enabled(s, e) && Next(s, e).destroyed[o] > s.destroyed[o]
    ensures o in s.ctxs && s.ctxs[o].ref == 0 && Holders(s.holds, o) == {}
    ensures (e == Destroy(o) && s.ctxs[o].closed) || e == MarkAll(s.ctxs[o].sock)
  {
    hide Tabled, MarkOne, Holders, Linked;
    if e.MarkAll? {
      ReadyAtStart(s, e.sock);
      if o in s.lists[e.sock] {
        MarkEachMarks(s, e.sock, s.lists[e.sock], o);
        MarkEachKeeps(s, e.sock, s.lists[e.sock]);
        MarkedNotDestroyed(s, Next(s, e), o);
      } else {
        MarkEachOthers(s, e.sock, s.lists[e.sock], o);
      }
    }
    Dead(s, o);
  }

  lemma MarkedNotDestroyed(s: State, t: State, o: nat)
    requires Inv(t) && o in s.ctxs && MarkedIn(s, t, o)
    ensures s.ctxs[o].ref != 0 ==> t.destroyed[o] == 0
  {
  }

  lemma Dead(s: State, o: nat)
    requires Inv(s)
    ensures o in s.dying ==> o in s.ctxs && s.ctxs[o].closed && s.ctxs[o].ref == 0
    ensures o in s.ctxs && s.ctxs[o].ref == 0 ==> Holders(s.holds, o) == {}
  {
  }

  /** In every run nni_ctx_find succeeds on exactly the open contexts that are linked, and gives back that one. */
  lemma FindIff(s: State, es: seq<Step>, t: State, o: nat, closing: bool, h: nat)
    requires Init(s) && Inv(s) && Run(s, es, t) && o in t.ctxs && h !in t.holds
    ensures Inv(t)
    ensures (Enabled(t, Find(t.ctxs[o].id, closing, h)) && t.ids[t.ctxs[o].id] == o) <==>
            (o !in t.dying && !t.ctxs[o].closed && (closing || t.ctxs[o].sock !in t.shut))
  {
    hide Run, Init, Listed, Counted, Lives;
    RunKeeps(s, es, t);
    assert Linked(t, o) <==> o !in t.dying;
  }

  // ---- sockets, as the events say ----

  lemma {:induction false} MarkEachSockets(s: State, k: nat, q: seq<nat>)
    requires Walkable(s, k, q)
    ensures MarkEach(s, k, q).closing == s.closing && MarkEach(s, k, q).shut == s.shut
    decreases |q|
  {
    if q != [] {
      assert q[0] in q;
      MarkEachSockets(MarkOne(s, q[0]), k, q[1..]);
    }
  }

  lemma StepSockets(s: State, e: Step, k: nat)
    requires Inv(s) && Enabled(s, e)
    ensures k in Next(s, e).closing <==> k in s.closing || e == Shutdown(k)
    ensures k in Next(s, e).shut <==> k in s.shut || e == Shut(k)
  {
    hide MarkOne, Lives, Counted, Tabled;
    if e.MarkAll? {
      ReadyAtStart(s, e.sock);
      MarkEachSockets(s, e.sock, s.lists[e.sock]);
    }
  }

  lemma {:induction false} SocketsAsTold(s: State, es: seq<Step>, t: State, k: nat)
    requires Inv(s) && Run(s, es, t)
    ensures k in t.closing <==> k in s.closing || Shutdown(k) in es
    ensures k in t.shut <==> k in s.shut || Shut(k) in es
    decreases |es|
  {
    hide Inv, Enabled, Next;
    if es != [] {
      assert es == [es[0]] + es[1..];
      StepKeeps(s, es[0]);
      StepSockets(s, es[0], k);
      SocketsAsTold(Next(s, es[0]), es[1..], t, k);
    }
  }

  /** In every run nni_ctx_open gives its context back exactly when the socket's shutdown has begun. */
  lemma OpenRefusedIff(s: State, es: seq<Step>, t: State, h: nat)
    requires Init(s) && Inv(s) && Run(s, es, t)
    ensures Inv(t)
    ensures Enabled(t, Check(h)) ==>
              var o := t.holds[h].obj;
              && o in t.ctxs && h in Next(t, Check(h)).holds
              && Next(t, Check(h)).holds[h] == Hold(o, if Shutdown(t.ctxs[o].sock) in es then Refused else Held)
  {
    hide Run, Listed, Lives, Counted, Tabled;
    RunKeeps(s, es, t);
    if Enabled(t, Check(h)) {
      HolderFacts(t, h);
      SocketsAsTold(s, es, t, t.ctxs[t.holds[h].obj].sock);
    }
  }

  /** What is found is not closed, not destroyed, and has the identifier that was asked for. */
  lemma FoundIsOpen(s: State, id: nat, closing: bool, h: nat)
    requires Inv(s) && Enabled(s, Find(id, closing, h))
    ensures s.ids[id] in s.ctxs && !s.ctxs[s.ids[id]].closed && s.ctxs[s.ids[id]].id == id
    ensures s.destroyed[s.ids[id]] == 0 && s.ids[id] !in s.dying
    ensures Next(s, Find(id, closing, h)).ctxs[s.ids[id]].ref > 0
  {
    assert Linked(s, s.ids[id]);
    assert s.ctxs[s.ids[id]].ref == |Holders(s.holds, s.ids[id])|;
  }

  /** After the shutdown loop a context of the socket is closed if someone refers to it, and gone if not. */
  lemma ShutdownMarks(s: State, k: nat)
    requires Inv(s) && Enabled(s, MarkAll(k))
    ensures var t := Next(s, MarkAll(k));
            k in t.lists &&
            (forall o :: o in s.lists[k] ==>
               o in s.ctxs && MarkedIn(s, t, o) && (o in t.lists[k] <==> s.ctxs[o].ref > 0)) &&
            (forall o :: o in t.lists[k] ==> o in t.ctxs && t.ctxs[o].closed && t.ctxs[o].ref > 0) &&
            (forall o :: o in s.ctxs && o !in s.lists[k] ==> o in t.ctxs && t.ctxs[o] == s.ctxs[o])
  {
    hide Lives, Tabled, MarkOne, Holders;
    var t := Next(s, MarkAll(k));
    ReadyAtStart(s, k);
    MarkEachKeeps(s, k, s.lists[k]);
    forall o | o in s.lists[k] ensures o in s.ctxs && MarkedIn(s, t, o) && (o in t.lists[k] <==> s.ctxs[o].ref > 0) {
      MarkEachMarks(s, k, s.lists[k], o);
      IdleOrHeld(s, o);
      OnList(t, k, o);
    }
    forall o | o in t.lists[k] ensures o in t.ctxs && t.ctxs[o].closed && t.ctxs[o].ref > 0 {
      OnList(t, k, o);
      ListedBefore(s, k, o);
      MarkEachMarks(s, k, s.lists[k], o);
    }
    forall o | o in s.ctxs && o !in s.lists[k] ensures o in t.ctxs && t.ctxs[o] == s.ctxs[o] {
      MarkEachOthers(s, k, s.lists[k], o);
    }
  }

  lemma OnList(s: State, k: nat, o: nat)
    requires Inv(s) && k in s.lists
    ensures o in s.lists[k] <==> Linked(s, o) && s.ctxs[o].sock == k
    ensures o in s.lists[k] && s.ctxs[o].closed ==> s.ctxs[o].ref > 0
  {
    assert ListOk(s, k);
  }

  lemma ListedBefore(s: State, k: nat, o: nat)
    requires k in s.lists && Ready(s, k, s.lists[k])
    requires k in MarkEach(s, k, s.lists[k]).lists && o in MarkEach(s, k, s.lists[k]).lists[k]
    ensures o in s.lists[k]
  {
    hide MarkOne, Lives, Counted, Tabled;
    MarkEachKeeps(s, k, s.lists[k]);
    OnList(MarkEach(s, k, s.lists[k]), k, o);
    if o !in s.lists[k] {
      MarkEachOthers(s, k, s.lists[k], o);
      OnList(s, k, o);
      assert false;
    }
  }

  /** With no reference left, the list of a socket is empty if and only if every context on it was closed. */
  lemma DrainedIff(s: State, k: nat)
    requires Inv(s) && k in s.lists && s.holds == map[]
    ensures s.lists[k] == [] <==> forall o :: o in s.lists[k] ==> o in s.ctxs && s.ctxs[o].closed
  {
    hide Lives, Tabled, Listed;
    if s.lists[k] != [] {
      var o := s.lists[k][0];
      OnList(s, k, o);
      IdleOrHeld(s, o);
      assert Holders(s.holds, o) == {};
      assert o in s.lists[k];
    }
  }

  /** A linked context was linked before, unless this step made it; closing is for good. */
  lemma LinkedBefore(s: State, e: Step, o: nat)
    requires Inv(s) && Enabled(s, e) && Linked(Next(s, e), o) && !(e.Open? && o == s.made)
    ensures Linked(s, o) && s.ctxs[o].sock == Next(s, e).ctxs[o].sock
    ensures s.ctxs[o].closed ==> Next(s, e).ctxs[o].closed
  {
    hide MarkOne, Lives, Counted, Tabled;
    if e.MarkAll? {
      ReadyAtStart(s, e.sock);
      if o in s.lists[e.sock] {
        MarkEachMarks(s, e.sock, s.lists[e.sock], o);
        OnList(s, e.sock, o);
      } else {
        MarkEachOthers(s, e.sock, s.lists[e.sock], o);
      }
    } else if e.Destroy? {
      DestroyLives(s, e.obj);
    } else if e.Mark? || e.Rele? {
      HolderFacts(s, e.h);
    } else if e.Find? {
      FoundIsOpen(s, e.id, e.closing, e.h);
    }
  }

  /** A context stays linked and open until it is marked. */
  lemma StaysOpen(s: State, e: Step, o: nat)
    requires Inv(s) && Enabled(s, e) && Linked(s, o) && !s.ctxs[o].closed
    requires !(e.Mark? && s.holds[e.h].obj == o) && !(e.MarkAll? && e.sock == s.ctxs[o].sock)
    ensures Linked(Next(s, e), o) && !Next(s, e).ctxs[o].closed && Next(s, e).ctxs[o].sock == s.ctxs[o].sock
  {
    hide MarkOne, Lives, Counted, Tabled;
    if e.MarkAll? {
      ReadyAtStart(s, e.sock);
      OnList(s, e.sock, o);
      MarkEachOthers(s, e.sock, s.lists[e.sock], o);
    } else if e.Destroy? {
      DestroyLives(s, e.obj);
      Dead(s, e.obj);
    } else if e.Mark? || e.Rele? {
      HolderFacts(s, e.h);
    } else if e.Find? {
      FoundIsOpen(s, e.id, e.closing, e.h);
    } else if e.Open? {
      Fresh(s);
    }
  }

  /** The contexts of socket `k` opened so far and not marked since, after one more step. */
  ghost function OpenAfter(s: State, e: Step, k: nat, was: set<nat>): set<nat>
    requires Inv(s) && Enabled(s, e)
  {
    match e
    case Open(sock, _, _) => if sock == k then was + {s.made} else was
    case Mark(h) => was - {s.holds[h].obj}
    case MarkAll(sock) => if sock == k then {} else was
    case _ => was
  }

  /** ... after a run: opened on `k` and marked neither by nni_ctx_close nor by the shutdown loop. */
  ghost function StillOpen(s: State, es: seq<Step>, t: State, k: nat, was: set<nat>): set<nat>
    requires Inv(s) && Run(s, es, t)
    decreases |es|
  {
    if es == [] then was
    else (StepKeeps(s, es[0]); StillOpen(Next(s, es[0]), es[1..], t, k, OpenAfter(s, es[0], k, was)))
  }

  /** `open` are the contexts of `k` that are linked and not closed. */
  ghost predicate Tracks(s: State, k: nat, open: set<nat>) {
    forall o :: o in open <==> IsOpen(s, k, o)
  }

  ghost predicate IsOpen(s: State, k: nat, o: nat) {
    Linked(s, o) && s.ctxs[o].sock == k && !s.ctxs[o].closed
  }

  lemma OpenIff(s: State, e: Step, k: nat, was: set<nat>, o: nat)
    requires Inv(s) && Enabled(s, e) && Tracks(s, k, was)
    ensures o in OpenAfter(s, e, k, was) <==> IsOpen(Next(s, e), k, o)
  {
    hide Inv, Next;
    assert o in was <==> IsOpen(s, k, o);
    if e.Open? && o == s.made {
      NewOpen(s, e);
    } else if Linked(Next(s, e), o) {
      LinkedBefore(s, e, o);
      Marked(s, e, o);
    }
    if IsOpen(s, k, o) && !(e.Mark? && s.holds[e.h].obj == o) && !(e.MarkAll? && e.sock == k) { StaysOpen(s, e, o); }
  }

  lemma NewOpen(s: State, e: Step)
    requires Inv(s) && Enabled(s, e) && e.Open?
    ensures s.made !in s.ctxs && Linked(Next(s, e), s.made)
    ensures Next(s, e).ctxs[s.made].sock == e.sock && !Next(s, e).ctxs[s.made].closed
  {
    Fresh(s);
  }

  lemma Marked(s: State, e: Step, o: nat)
    requires Inv(s) && Enabled(s, e) && Linked(s, o) && Linked(Next(s, e), o)
    ensures e.Mark? && s.holds[e.h].obj == o ==> Next(s, e).ctxs[o].closed
    ensures e.MarkAll? && e.sock == s.ctxs[o].sock ==> Next(s, e).ctxs[o].closed
  {
    hide MarkOne, Lives, Counted, Tabled;
    if e.MarkAll? && e.sock == s.ctxs[o].sock {
      ReadyAtStart(s, e.sock);
      OnList(s, e.sock, o);
      MarkEachMarks(s, e.sock, s.lists[e.sock], o);
    }
  }

  lemma {:induction false} RunTracks(s: State, es: seq<Step>, t: State, k: nat, was: set<nat>)
    requires Inv(s) && Run(s, es, t) && Tracks(s, k, was)
    ensures Inv(t) && Tracks(t, k, StillOpen(s, es, t, k, was))
    decreases |es|
  {
    hide Inv, Next, Enabled, IsOpen, OpenAfter;
    if es != [] {
      StepKeeps(s, es[0]);
      forall o: nat ensures o in OpenAfter(s, es[0], k, was) <==> IsOpen(Next(s, es[0]), k, o) {
        OpenIff(s, es[0], k, was, o);
      }
      RunTracks(Next(s, es[0]), es[1..], t, k, OpenAfter(s, es[0], k, was));
    }
  }

  /**
   What shutdown and close wait for: with no reference left, the socket's list is empty if and only if no context was
   opened on it and left unmarked, by nni_ctx_close or by the shutdown loop, since.
   */
  lemma DrainsIff(s: State, es: seq<Step>, t: State, k: nat)
    requires Init(s) && Inv(s) && Run(s, es, t) && t.holds == map[] && k in t.lists
    ensures t.lists[k] == [] <==> StillOpen(s, es, t, k, {}) == {}
  {
    hide Run, Inv, StillOpen;
    RunTracks(s, es, t, k, {});
    DrainedIff(t, k);
    if t.lists[k] != [] {
      var o :| o in t.lists[k] && !(o in t.ctxs && t.ctxs[o].closed);
      OnList(t, k, o);
      assert IsOpen(t, k, o);
    }
    forall o | o in StillOpen(s, es, t, k, {}) ensures o in t.lists[k] {
      assert IsOpen(t, k, o);
      OnList(t, k, o);
    }
  }

  // ---- a context opened during shutdown ----

  /** The list of `k` is never empty on the way. */
  ghost predicate NeverEmpty(s: State, es: seq<Step>, t: State, k: nat)
    requires Inv(s) && Run(s, es, t)
    decreases |es|
  {
    && k in s.lists && s.lists[k] != []
    && (es != [] ==> (StepKeeps(s, es[0]); NeverEmpty(Next(s, es[0]), es[1..], t, k)))
  }

  lemma Then(s: State, e: Step, es: seq<Step>, t: State) returns (all: seq<Step>)
    requires Inv(s) && Enabled(s, e) && Inv(Next(s, e)) && Run(Next(s, e), es, t)
    ensures all == [e] + es && Run(s, all, t)
    ensures 0 in s.lists && s.lists[0] != [] && NeverEmpty(Next(s, e), es, t, 0) ==> NeverEmpty(s, all, t, 0)
  {
    hide Inv, Enabled, Next;
    all := [e] + es;
    assert all[1..] == es;
  }

  lemma Ends(t: State)
    requires Inv(t)
    ensures Run(t, [], t) && (0 in t.lists && t.lists[0] != [] ==> NeverEmpty(t, [], t, 0))
  {
  }

  /** After the loop: the first context is closed, listed and referenced. */
  ghost predicate LoopDone(m: State) {
    && m.ctxs == map[0 := Ctx(1, 0, 1, true)] && m.made == 1 && m.ids == map[1 := 0] && m.lists == map[0 := [0]]
    && m.holds == map[0 := Hold(0, Held)] && m.dying == multiset{} && m.closing == {0} && m.shut == {}
  }

  lemma ToLoop(s: State) returns (es: seq<Step>, m: State)
    requires Init(s) && Inv(s) && s.lists == map[0 := []]
    ensures Inv(m) && Run(s, es, m) && es != [] && es[|es| - 1] == MarkAll(0) && LoopDone(m)
  {
    hide Inv, Lives, Counted, Tabled, Listed, Run, NeverEmpty;
    var s1 := Next(s, Open(0, 1, 0));
    StepKeeps(s, Open(0, 1, 0));
    assert s1.lists[0] == [0];
    assert s1.lists == map[0 := [0]];
    var s2 := Next(s1, Check(0));
    StepKeeps(s1, Check(0));
    assert s2.holds == map[0 := Hold(0, Held)];
    var s3 := Next(s2, Shutdown(0));
    StepKeeps(s2, Shutdown(0));
    m := Next(s3, MarkAll(0));
    StepKeeps(s3, MarkAll(0));
    assert [0][1..] == [] && m == MarkOne(s3, 0);
    Ends(m);
    es := Then(s3, MarkAll(0), [], m);
    es := Then(s2, Shutdown(0), es, m);
    es := Then(s1, Check(0), es, m);
    es := Then(s, Open(0, 1, 0), es, m);
  }

  /** The second context: opened, refused, released. */
  ghost predicate LateListed(n: State) {
    && n.ctxs == map[0 := Ctx(1, 0, 1, true), 1 := Ctx(2, 0, 0, false)] && n.ids == map[1 := 0, 2 := 1]
    && n.lists == map[0 := [0, 1]] && n.holds == map[0 := Hold(0, Held)] && n.dying == multiset{}
  }

  lemma ToLate(m: State) returns (n1: State, n2: State, n: State)
    requires Inv(m) && LoopDone(m)
    ensures Enabled(m, Open(0, 2, 1)) && n1 == Next(m, Open(0, 2, 1)) && Inv(n1) && n1.lists == map[0 := [0, 1]]
    ensures Enabled(n1, Check(1)) && n2 == Next(n1, Check(1)) && Inv(n2) && n2.lists == map[0 := [0, 1]]
    ensures Enabled(n2, Rele(1)) && n == Next(n2, Rele(1)) && Inv(n) && LateListed(n)
  {
    hide Inv, Lives, Counted, Tabled, Listed, MarkOne;
    n1 := Next(m, Open(0, 2, 1));
    StepKeeps(m, Open(0, 2, 1));
    assert n1.lists[0] == [0] + [1] == [0, 1];
    assert n1.lists == map[0 := [0, 1]];
    n2 := Next(n1, Check(1));
    StepKeeps(n1, Check(1));
    n := Next(n2, Rele(1));
    StepKeeps(n2, Rele(1));
    assert n.holds == map[0 := Hold(0, Held)];
  }

  /** The first context: released and destroyed. */
  lemma ToEnd(n: State) returns (n1: State, t: State)
    requires Inv(n) && LateListed(n)
    ensures Enabled(n, Rele(0)) && n1 == Next(n, Rele(0)) && Inv(n1) && 0 in n1.lists && n1.lists[0] == [1]
    ensures Enabled(n1, Destroy(0)) && t == Next(n1, Destroy(0)) && Inv(t) && t.lists == n1.lists
    ensures t.holds == map[] && t.dying == multiset{} && 1 in t.ctxs && t.ctxs[1] == Ctx(2, 0, 0, false)
  {
    hide Inv, Lives, Counted, Tabled, Listed, MarkOne;
    n1 := Next(n, Rele(0));
    StepKeeps(n, Rele(0));
    assert [0, 1][1..] == [1] && [1][1..] == [];
    t := Next(n1, Destroy(0));
    StepKeeps(n1, Destroy(0));
  }

  /**
   A context is open and referenced when the shutdown loop runs; another is opened right after it, and released by
   nni_ctx_open itself; then the first is released. From the loop on the list is never empty, and in the end the second
   context is on it, open, with no reference to it: shutdown's wait never ends.
   */
  lemma LateOpenStays(s: State)
    requires Init(s) && s.lists == map[0 := []]
    ensures Inv(s)
    ensures exists before, m, after, t ::
              && Run(s, before, m) && before != [] && before[|before| - 1] == MarkAll(0)
              && Inv(m) && Run(m, after, t) && NeverEmpty(m, after, t, 0) && t.holds == map[] && t.dying == multiset{}
              && 0 in t.lists && t.lists[0] == [1] && 1 in t.ctxs && !t.ctxs[1].closed && t.ctxs[1].ref == 0
  {
    hide Inv, Run, Next, Enabled, NeverEmpty;
    InitInv(s);
    var before, m := ToLoop(s);
    var n1, n2, n := ToLate(m);
    var n3, t := ToEnd(n);
    Ends(t);
    var after := Then(n3, Destroy(0), [], t);
    after := Then(n, Rele(0), after, t);
    after := Then(n2, Rele(1), after, t);
    after := Then(n1, Check(1), after, t);
    after := Then(m, Open(0, 2, 1), after, t);
  }
}
