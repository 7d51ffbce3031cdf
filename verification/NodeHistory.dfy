/** The node table over whole runs, from the links and link drops that were done. */
module NodeHistory {
  import opened Text
  import opened Chat
  import opened HubSpec
  import opened HubHistory

  predicate Links(op: Op, c: string) { op.OpLink? && NormCall(op.call) == c }
  predicate Drops(op: Op, c: string) { op.OpUnlink? && NormCall(op.call) == c }

  /** No drop of `c` at or after position `from`. */
  predicate Kept(ops: seq<Timed>, c: string, from: nat) {
    forall j :: from <= j < |ops| ==> !Drops(ops[j].op, c)
  }

  /** `c` has been linked, and not dropped since. */
  predicate Up(ops: seq<Timed>, c: string) {
    exists i :: 0 <= i < |ops| && Links(ops[i].op, c) && Kept(ops, c, i)
  }

  /** `i` begins the present spell of `c`: it links it, no drop follows, and every link before
      it was ended by a drop before it. */
  predicate Begins(ops: seq<Timed>, c: string, i: nat) {
    && i < |ops| && Links(ops[i].op, c) && Kept(ops, c, i)
    && forall j :: 0 <= j < i && Links(ops[j].op, c) ==> !Kept(ops[..i], c, j)
  }

  /** `i` is the last link of `c`. */
  predicate LastLink(ops: seq<Timed>, c: string, i: nat) {
    i < |ops| && Links(ops[i].op, c) && forall j :: i < j < |ops| ==> !Links(ops[j].op, c)
  }

  /** `i` gave `c` its version: no later link has one to give, and unless it began the spell it
      gave one itself. */
  predicate Versions(ops: seq<Timed>, c: string, first: nat, i: nat) {
    && first <= i < |ops| && Links(ops[i].op, c) && (i == first || ops[i].op.version != "")
    && forall j :: i < j < |ops| && Links(ops[j].op, c) ==> ops[j].op.version == ""
  }

  /** The entry of `c` as the run's links make it: alias of the spell's first link, the last
      version given in the spell, time of the last link. */
  predicate Entry(ops: seq<Timed>, c: string, n: Node, first: nat, last: nat, v: nat) {
    && Begins(ops, c, first) && LastLink(ops, c, last) && Versions(ops, c, first, v)
    && n == Node(c, ops[first].op.alias, ops[v].op.version, ops[last].now)
  }

  /** What the run says of `c` is what the table holds of it. */
  ghost predicate Recorded(ops: seq<Timed>, nodes: map<string, Node>, c: string) {
    && (c in nodes <==> Up(ops, c))
    && (c in nodes ==> exists first, last, v :: Entry(ops, c, nodes[c], first, last, v))
  }

  // ---- one more operation ----

  lemma KeptOneMore(ops: seq<Timed>, t: Timed, c: string, from: nat)
    requires from <= |ops|
    ensures Kept(ops + [t], c, from) <==> Kept(ops, c, from) && !Drops(t.op, c)
  {
    if Kept(ops + [t], c, from) {
      assert forall j :: from <= j < |ops| ==> ops[j] == (ops + [t])[j];
      assert (ops + [t])[|ops|] == t;
    }
  }

  lemma UpOneMore(ops: seq<Timed>, t: Timed, c: string)
    ensures Up(ops + [t], c) <==> Links(t.op, c) || (Up(ops, c) && !Drops(t.op, c))
  {
    if Up(ops + [t], c) && !Links(t.op, c) {
      var i :| 0 <= i < |ops + [t]| && Links((ops + [t])[i].op, c) && Kept(ops + [t], c, i);
      KeptOneMore(ops, t, c, i);
    }
    if Up(ops, c) && !Drops(t.op, c) {
      var i :| 0 <= i < |ops| && Links(ops[i].op, c) && Kept(ops, c, i);
      KeptOneMore(ops, t, c, i);
      assert (ops + [t])[i] == ops[i];
    }
    if Links(t.op, c) {
      assert (ops + [t])[|ops|] == t;
      assert Kept(ops + [t], c, |ops|);
    }
  }

  lemma BeginsOneMore(ops: seq<Timed>, t: Timed, c: string, i: nat)
    requires Begins(ops, c, i) && !Drops(t.op, c)
    ensures Begins(ops + [t], c, i)
  {
    KeptOneMore(ops, t, c, i);
    assert (ops + [t])[..i] == ops[..i];
    assert forall j :: 0 <= j <= i ==> (ops + [t])[j] == ops[j];
  }

  lemma NewSpell(ops: seq<Timed>, t: Timed, c: string)
    requires Links(t.op, c) && !Up(ops, c)
    ensures Entry(ops + [t], c, Node(c, t.op.alias, t.op.version, t.now), |ops|, |ops|, |ops|)
  {
    assert (ops + [t])[..|ops|] == ops;
    assert forall j :: 0 <= j < |ops| ==> (ops + [t])[j] == ops[j];
    assert (ops + [t])[|ops|] == t;
  }

  lemma LinkedAgain(ops: seq<Timed>, t: Timed, c: string, n: Node, first: nat, last: nat, v: nat)
    requires Links(t.op, c) && Entry(ops, c, n, first, last, v)
    ensures
      Entry(ops + [t], c, n.(linked := t.now, version := if t.op.version != "" then t.op.version else n.version),
            first, |ops|, if t.op.version != "" then |ops| else v)
  {
    BeginsOneMore(ops, t, c, first);
    assert forall j :: 0 <= j < |ops| ==> (ops + [t])[j] == ops[j];
    assert (ops + [t])[|ops|] == t;
  }

  lemma Unconcerned(ops: seq<Timed>, t: Timed, c: string, n: Node, first: nat, last: nat, v: nat)
    requires !Links(t.op, c) && !Drops(t.op, c) && Entry(ops, c, n, first, last, v)
    ensures Entry(ops + [t], c, n, first, last, v)
  {
    BeginsOneMore(ops, t, c, first);
    assert forall j :: 0 <= j < |ops| ==> (ops + [t])[j] == ops[j];
  }

  /** What one operation does to the entry of `c`. */
  lemma OnlyOwnLinks(h: State, op: Op, now: int, c: string)
    requires Tabled(h) && !Links(op, c) && !Drops(op, c)
    ensures c in Perform(h, op, now).nodes <==> c in h.nodes
    ensures c in h.nodes ==> Perform(h, op, now).nodes[c] == h.nodes[c]
  {
    if !op.OpLink? && !op.OpUnlink? { OthersKeepNodes(h, op, now); }
  }

  lemma RecordedOneMore(h: State, ops: seq<Timed>, t: Timed, c: string)
    requires Tabled(h) && c != "" && Recorded(ops, h.nodes, c)
    ensures Recorded(ops + [t], Perform(h, t.op, t.now).nodes, c)
  {
    UpOneMore(ops, t, c);
    var nodes' := Perform(h, t.op, t.now).nodes;
    if Links(t.op, c) {
      if c in h.nodes {
        var first, last, v :| Entry(ops, c, h.nodes[c], first, last, v);
        LinkedAgain(ops, t, c, h.nodes[c], first, last, v);
      } else {
        NewSpell(ops, t, c);
      }
    } else if !Drops(t.op, c) {
      OnlyOwnLinks(h, t.op, t.now, c);
      if c in h.nodes {
        var first, last, v :| Entry(ops, c, h.nodes[c], first, last, v);
        Unconcerned(ops, t, c, h.nodes[c], first, last, v);
      }
    }
  }

  lemma {:induction false} RunOneMore(h: State, ops: seq<Timed>, t: Timed)
    requires Valid(h)
    ensures Valid(RunOps(h, ops)) && RunOps(h, ops + [t]) == Perform(RunOps(h, ops), t.op, t.now)
    decreases |ops|
  {
    if ops == [] {
      PerformKeeps(h, t.op, t.now);
      assert (ops + [t])[1..] == [];
    } else {
      PerformKeeps(h, ops[0].op, ops[0].now);
      RunOneMore(Perform(h, ops[0].op, ops[0].now), ops[1..], t);
      assert (ops + [t])[1..] == ops[1..] + [t] && (ops + [t])[0] == ops[0];
    }
  }

  /** Over every run from a new hub, a node is in the table exactly when it was linked and not
      dropped since, and its entry holds the alias it was first linked under, the last version it
      was given and the time it was last linked. */
  lemma {:induction false} NodesAreTheLinked(ops: seq<Timed>, c: string)
    requires c != ""
    ensures Recorded(ops, RunOps(NewState(), ops).nodes, c)
    decreases |ops|
  {
    if ops == [] {
      assert !Up(ops, c);
    } else {
      var init, t := ops[..|ops| - 1], ops[|ops| - 1];
      assert ops == init + [t];
      NodesAreTheLinked(init, c);
      RunOneMore(NewState(), init, t);
      RecordedOneMore(RunOps(NewState(), init), init, t, c);
    }
  }

  /** A link answers true, and announces the node as it was entered, exactly when the node was not
      up; a blank callsign is never entered. */
  lemma LinkAnnouncesNewNodes(ops: seq<Timed>, call: string, alias: string, version: string, now: int)
    ensures
      var c, e := NormCall(call), LinkNode(RunOps(NewState(), ops), call, alias, version, now);
      && e.reply == Ok(c != "" && !Up(ops, c))
      && e.events == (if c != "" && !Up(ops, c) then [NodeLinked(Node(c, alias, version, now))] else [])
      && (c in e.state.nodes <==> c != "")
  {
    if NormCall(call) == "" { BlankIsNeverUp(ops); } else { NodesAreTheLinked(ops, NormCall(call)); }
  }

  lemma {:induction false} BlankIsNeverUp(ops: seq<Timed>)
    ensures "" !in RunOps(NewState(), ops).nodes
    decreases |ops|
  {
    if ops != [] {
      var init, t := ops[..|ops| - 1], ops[|ops| - 1];
      assert ops == init + [t];
      BlankIsNeverUp(init);
      RunOneMore(NewState(), init, t);
      PerformKeepsBlankOut(RunOps(NewState(), init), t.op, t.now);
    }
  }

  lemma PerformKeepsBlankOut(h: State, op: Op, now: int)
    requires Tabled(h) && "" !in h.nodes
    ensures "" !in Perform(h, op, now).nodes
  {
    if !op.OpLink? && !op.OpUnlink? { OthersKeepNodes(h, op, now); }
  }

  /** `c` is gone, and with it exactly the users learned through it, each announced; the last
      announcement is that the node is gone, with the entry the table held. */
  ghost predicate Lost(h: State, c: string, h': State, events: seq<Event>) {
    && c in h.nodes && c !in h'.nodes
    && (forall k :: k in h'.users
          <==> k in h.users && h.users[k].origin.link != c && h.users[k].origin.node != c)
    && (forall k :: k in h'.users ==> h'.users[k] == h.users[k])
    && (forall k :: k in h.users && k !in h'.users ==> UserLeft(h.users[k]) in events)
    && events != [] && events[|events| - 1] == NodeUnlinked(h.nodes[c])
  }

  lemma DropIsAnnounced(h: State, call: string, events: seq<Event>)
    requires NormCall(call) in h.nodes && UnlinkEvents(h, call, events)
    ensures Lost(h, NormCall(call), UnlinkNode(h, call), events)
  {
  }

  lemma UpIsEntered(ops: seq<Timed>, c: string)
    requires Up(ops, c) && c != ""
    ensures c in RunOps(NewState(), ops).nodes
  {
    NodesAreTheLinked(ops, c);
  }

  lemma DropOneMore(ops: seq<Timed>, call: string, now: int)
    ensures RunOps(NewState(), ops + [Timed(OpUnlink(call), now)]) == UnlinkNode(RunOps(NewState(), ops), call)
  {
    RunOneMore(NewState(), ops, Timed(OpUnlink(call), now));
  }

  /** After any run in which the node was linked and not dropped since, a drop of it takes the
      node and every user learned through it. */
  lemma DropTakesItsUsers(ops: seq<Timed>, call: string, now: int, events: seq<Event>)
    requires Up(ops, NormCall(call)) && NormCall(call) != ""
    requires UnlinkEvents(RunOps(NewState(), ops), call, events)
    ensures Lost(RunOps(NewState(), ops), NormCall(call),
                 RunOps(NewState(), ops + [Timed(OpUnlink(call), now)]), events)
  {
    UpIsEntered(ops, NormCall(call));
    DropOneMore(ops, call, now);
    DropIsAnnounced(RunOps(NewState(), ops), call, events);
  }
}
