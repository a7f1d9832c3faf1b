/** The ante decorator that rejects transactions holding a blocked message at any depth of authz nesting. */
module MsgFilter {
  import opened Results

  /** A message; an authz exec carries messages, which may fail to decode. */
  datatype Msg = Plain(name: string) | Exec(msgs: seq<Msg>) | UndecodableExec

  const EXEC_NAME := "cosmos.authz.v1beta1.MsgExec"

  function MessageName(m: Msg): string {
    if m.Plain? then m.name else EXEC_NAME
  }

  datatype Context = Context(height: int, gasUsed: nat)

  datatype AnteError = UnsupportedMessages(height: int) | Downstream(code: int)

  datatype Reply = Reply(ctx: Context, err: Option<AnteError>)

  /** The rest of the ante chain: context, messages of the transaction, simulation flag. */
  type Handler = (Context, seq<Msg>, bool) -> Reply

  // ---------------------------------------------------------------------------------------------
  // Specification: some reachable message offends
  // ---------------------------------------------------------------------------------------------

  /** Following the path, one index for each level of nesting, leads to m. */
  ghost predicate Reaches(msgs: seq<Msg>, path: seq<nat>, m: Msg)
    decreases |path|
  {
    && path != [] && path[0] < |msgs|
    && (if |path| == 1 then m == msgs[path[0]]
        else msgs[path[0]].Exec? && Reaches(msgs[path[0]].msgs, path[1..], m))
  }

  ghost predicate Blocked(blocked: seq<Msg>, name: string) {
    exists b | b in blocked :: MessageName(b) == name
  }

  /** A message of a blocked type, or an exec whose contents do not decode. */
  ghost predicate Offends(blocked: seq<Msg>, m: Msg) {
    m.UndecodableExec? || Blocked(blocked, MessageName(m))
  }

  ghost predicate Rejected(blocked: seq<Msg>, msgs: seq<Msg>) {
    exists path, m :: Reaches(msgs, path, m) && Offends(blocked, m)
  }

  ghost predicate MsgRejected(blocked: seq<Msg>, m: Msg) {
    Offends(blocked, m) || (m.Exec? && Rejected(blocked, m.msgs))
  }

  /** A list is rejected exactly when one of its own messages is, so the order of the search does not matter. */
  lemma RejectedAnywhere(blocked: seq<Msg>, msgs: seq<Msg>)
    ensures Rejected(blocked, msgs) <==> exists i | 0 <= i < |msgs| :: MsgRejected(blocked, msgs[i])
  {
    if Rejected(blocked, msgs) {
      var path, m :| Reaches(msgs, path, m) && Offends(blocked, m);
      if |path| > 1 {
        assert Reaches(msgs[path[0]].msgs, path[1..], m);
      }
      assert MsgRejected(blocked, msgs[path[0]]);
    }
    forall i | 0 <= i < |msgs| && MsgRejected(blocked, msgs[i]) ensures Rejected(blocked, msgs) {
      if Offends(blocked, msgs[i]) {
        assert Reaches(msgs, [i], msgs[i]);
      } else {
        var path, m :| Reaches(msgs[i].msgs, path, m) && Offends(blocked, m);
        assert ([i] + path)[1..] == path;
        assert Reaches(msgs, [i] + path, m);
      }
    }
  }

  lemma RejectedAppend(blocked: seq<Msg>, a: seq<Msg>, b: seq<Msg>)
    ensures Rejected(blocked, a + b) <==> Rejected(blocked, a) || Rejected(blocked, b)
  {
    RejectedAnywhere(blocked, a);
    RejectedAnywhere(blocked, b);
    RejectedAnywhere(blocked, a + b);
    hide Rejected, MsgRejected;
    assert forall i | 0 <= i < |a| :: (a + b)[i] == a[i];
    assert forall i | 0 <= i < |b| :: (a + b)[|a| + i] == b[i];
  }

  lemma RejectedOne(blocked: seq<Msg>, m: Msg)
    ensures Rejected(blocked, [m]) <==> MsgRejected(blocked, m)
  {
    RejectedAnywhere(blocked, [m]);
    hide Rejected, MsgRejected;
    assert [m][0] == m;
  }

  lemma RejectedNothing(blocked: seq<Msg>)
    ensures !Rejected(blocked, [])
  {
  }

  // ---------------------------------------------------------------------------------------------
  // The decorator
  // ---------------------------------------------------------------------------------------------

  /** The decorator as a handler in front of another one. */
  ghost function Handle(blocked: seq<Msg>, ctx: Context, msgs: seq<Msg>, simulate: bool, next: Handler): Reply {
    if Rejected(blocked, msgs) then Reply(ctx, Some(UnsupportedMessages(ctx.height))) else next(ctx, msgs, simulate)
  }

  datatype MsgFilterDecorator = MsgFilterDecorator(blockedTypes: seq<Msg>) {

    method AnteHandle(ctx: Context, msgs: seq<Msg>, simulate: bool, next: Handler) returns (reply: Reply)
      ensures Rejected(blockedTypes, msgs) ==> reply == Reply(ctx, Some(UnsupportedMessages(ctx.height)))
      ensures !Rejected(blockedTypes, msgs) ==> reply == next(ctx, msgs, simulate)
      ensures reply == Handle(blockedTypes, ctx, msgs, simulate, next)
    {
      var disallowed := HasDisallowedMessage(msgs);
      if disallowed {
        return Reply(ctx, Some(UnsupportedMessages(ctx.height)));
      }
      return next(ctx, msgs, simulate);
    }

    /** Depth-first search that stops at the first offence. */
    method HasDisallowedMessage(msgs: seq<Msg>) returns (found: bool)
      ensures found <==> Rejected(blockedTypes, msgs)
      decreases msgs
    {
      for i := 0 to |msgs|
        invariant !Rejected(blockedTypes, msgs[..i])
      {
        var msg := msgs[i];
        assert msgs[..i + 1] == msgs[..i] + [msg] && msgs == msgs[..i + 1] + msgs[i + 1..];
        RejectedAppend(blockedTypes, msgs[..i], [msg]);
        RejectedAppend(blockedTypes, msgs[..i + 1], msgs[i + 1..]);
        RejectedOne(blockedTypes, msg);
        if !msg.Plain? {
          if msg.UndecodableExec? {
            return true;
          }
          var nested := HasDisallowedMessage(msg.msgs);
          if nested {
            return true;
          }
        }
        for j := 0 to |blockedTypes|
          invariant !Blocked(blockedTypes[..j], MessageName(msg))
        {
          if MessageName(msg) == MessageName(blockedTypes[j]) {
            return true;
          }
          assert blockedTypes[..j + 1] == blockedTypes[..j] + [blockedTypes[j]];
        }
        assert blockedTypes[..|blockedTypes|] == blockedTypes;
      }
      assert msgs[..|msgs|] == msgs;
      return false;
    }
  }

  // ---------------------------------------------------------------------------------------------
  // Algebra of filters
  // ---------------------------------------------------------------------------------------------

  lemma RejectedUnion(a: seq<Msg>, b: seq<Msg>, msgs: seq<Msg>)
    ensures Rejected(a + b, msgs) <==> Rejected(a, msgs) || Rejected(b, msgs)
  {
    forall m: Msg ensures Offends(a + b, m) <==> Offends(a, m) || Offends(b, m) {
    }
  }

  /**
    Two filters in a row reply with the error at the height of the context if either list rejects, and otherwise
    with what the next handler replies; that is what one filter for both lists replies.
   */
  lemma ChainedFilters(a: seq<Msg>, b: seq<Msg>, ctx: Context, msgs: seq<Msg>, simulate: bool, next: Handler)
    ensures var inner := (c: Context, m: seq<Msg>, s: bool) => Handle(b, c, m, s, next);
            var reply := Handle(a, ctx, msgs, simulate, inner);
            && (Rejected(a, msgs) || Rejected(b, msgs) ==> reply == Reply(ctx, Some(UnsupportedMessages(ctx.height))))
            && (!Rejected(a, msgs) && !Rejected(b, msgs) ==> reply == next(ctx, msgs, simulate))
            && reply == Handle(a + b, ctx, msgs, simulate, next)
  {
    RejectedUnion(a, b, msgs);
    hide Rejected;
  }

  // ---------------------------------------------------------------------------------------------
  // What a filter rejects
  // ---------------------------------------------------------------------------------------------

  /** Every filter, also the empty one, rejects a list that holds an exec that does not decode, at any depth. */
  lemma UndecodableIsRejected(blocked: seq<Msg>, msgs: seq<Msg>, path: seq<nat>)
    requires Reaches(msgs, path, UndecodableExec)
    ensures Rejected(blocked, msgs)
  {
    assert Offends(blocked, UndecodableExec);
  }

  /** A blocked message is rejected at any depth. */
  lemma BlockedIsRejected(blocked: seq<Msg>, msgs: seq<Msg>, path: seq<nat>, m: Msg)
    requires Reaches(msgs, path, m) && m in blocked
    ensures Rejected(blocked, msgs)
  {
    assert Offends(blocked, m);
  }

  /** A plain message is rejected exactly when a blocked message has its name; all execs share one name. */
  lemma PlainIsRejectedIff(blocked: seq<Msg>, name: string)
    ensures Rejected(blocked, [Plain(name)]) <==>
            exists b | b in blocked :: b == Plain(name) || (!b.Plain? && name == "cosmos.authz.v1beta1.MsgExec")
  {
    RejectedOne(blocked, Plain(name));
  }

  /** An exec that decodes is rejected exactly when its contents are, or when execs are blocked themselves. */
  lemma ExecIsRejectedIff(blocked: seq<Msg>, inner: seq<Msg>)
    ensures Rejected(blocked, [Exec(inner)]) <==>
            || Rejected(blocked, inner)
            || exists b | b in blocked :: !b.Plain? || b == Plain("cosmos.authz.v1beta1.MsgExec")
  {
    RejectedOne(blocked, Exec(inner));
  }

  /** One blocked list rejects all that another does exactly when it blocks all the names the other does. */
  lemma StricterIff(a: seq<Msg>, b: seq<Msg>)
    ensures (forall msgs: seq<Msg> :: Rejected(a, msgs) ==> Rejected(b, msgs))
            <==> forall m | m in a :: Blocked(b, MessageName(m))
  {
    if forall m | m in a :: Blocked(b, MessageName(m)) {
      forall msgs: seq<Msg> | Rejected(a, msgs) ensures Rejected(b, msgs) {
        var path, m :| Reaches(msgs, path, m) && Offends(a, m);
        assert Offends(b, m);
      }
    }
    if forall msgs: seq<Msg> :: Rejected(a, msgs) ==> Rejected(b, msgs) {
      forall m | m in a ensures Blocked(b, MessageName(m)) {
        var probe := if MessageName(m) == EXEC_NAME then Exec([]) else Plain(MessageName(m));
        RejectedOne(a, probe);
        RejectedOne(b, probe);
        RejectedNothing(b);
        assert Offends(a, probe);
        assert Rejected(a, [probe]);
      }
    }
  }

  // ---------------------------------------------------------------------------------------------
  // Nesting
  // ---------------------------------------------------------------------------------------------

  /** Adds one exec layer: around a run of messages of a list, or somewhere inside an exec of the list. */
  datatype Layer = Around(from: nat, to: nat) | Inside(at: nat, inner: Layer)

  function AddLayer(e: Layer, msgs: seq<Msg>): seq<Msg> {
    match e
    case Around(i, j) =>
      if i <= j <= |msgs| then msgs[..i] + [Exec(msgs[i..j])] + msgs[j..] else msgs
    case Inside(k, inner) =>
      if k < |msgs| && msgs[k].Exec? then msgs[..k] + [Exec(AddLayer(inner, msgs[k].msgs))] + msgs[k + 1..] else msgs
  }

  lemma RejectedAround(blocked: seq<Msg>, a: seq<Msg>, m: Msg, c: seq<Msg>)
    ensures Rejected(blocked, a + [m] + c) <==> Rejected(blocked, a) || MsgRejected(blocked, m) || Rejected(blocked, c)
  {
    RejectedAppend(blocked, a + [m], c);
    RejectedAppend(blocked, a, [m]);
    RejectedOne(blocked, m);
  }

  /** A further layer never hides an offence, and reveals none unless exec messages are blocked themselves. */
  lemma {:induction false} LayerKeepsVerdict(blocked: seq<Msg>, e: Layer, msgs: seq<Msg>)
    ensures Rejected(blocked, msgs) ==> Rejected(blocked, AddLayer(e, msgs))
    ensures !Blocked(blocked, EXEC_NAME) ==> (Rejected(blocked, AddLayer(e, msgs)) <==> Rejected(blocked, msgs))
    decreases e
  {
    match e {
      case Around(i, j) =>
        if i <= j <= |msgs| {
          RejectedAround(blocked, msgs[..i], Exec(msgs[i..j]), msgs[j..]);
          RejectedAppend(blocked, msgs[..i], msgs[i..j]);
          RejectedAppend(blocked, msgs[..i] + msgs[i..j], msgs[j..]);
          assert msgs == msgs[..i] + msgs[i..j] + msgs[j..];
        }
      case Inside(k, inner) =>
        if k < |msgs| && msgs[k].Exec? {
          LayerKeepsVerdict(blocked, inner, msgs[k].msgs);
          RejectedAround(blocked, msgs[..k], Exec(AddLayer(inner, msgs[k].msgs)), msgs[k + 1..]);
          RejectedAround(blocked, msgs[..k], msgs[k], msgs[k + 1..]);
          assert msgs == msgs[..k] + [msgs[k]] + msgs[k + 1..];
        }
    }
  }

  /** Layers never change any verdict exactly when exec messages are not blocked themselves. */
  lemma LayersInvisibleIff(blocked: seq<Msg>)
    ensures (forall e: Layer, msgs: seq<Msg> :: Rejected(blocked, AddLayer(e, msgs)) <==> Rejected(blocked, msgs))
            <==> !Blocked(blocked, EXEC_NAME)
  {
    if !Blocked(blocked, EXEC_NAME) {
      forall e: Layer, msgs: seq<Msg>
        ensures Rejected(blocked, AddLayer(e, msgs)) <==> Rejected(blocked, msgs)
      {
        LayerKeepsVerdict(blocked, e, msgs);
      }
    } else {
      RejectedNothing(blocked);
      RejectedOne(blocked, Exec([]));
      assert AddLayer(Around(0, 0), []) == [Exec([])];
    }
  }
}
