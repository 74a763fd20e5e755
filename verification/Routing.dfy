/** Point-to-point messages: routing checks and grouping by sender. */
module Routing {
  import opened Results
  import opened Parties

  datatype Routed<T> = Routed(sender: nat, receiver: nat, body: T)

  /** The messages grouped by sender, or the first routing fault. */
  function Collect<T>(me: nat, expected: set<nat>, messages: seq<Routed<T>>): Result<map<nat, T>, AbortReason> {
    if |messages| == 0 then Ok(map[])
    else
      match Collect(me, expected, messages[..|messages| - 1])
      case Err(e) => Err(e)
      case Ok(m) =>
        var last := messages[|messages| - 1];
        if last.receiver != me then Err(MisroutedMessage(me, last.receiver))
        else if last.sender !in expected then Err(UnexpectedSender(last.sender))
        else if last.sender in m then Err(DuplicateSender(last.sender))
        else Ok(m[last.sender := last.body])
  }

  method CollectBySender<T>(me: nat, expected: set<nat>, messages: seq<Routed<T>>)
    returns (r: Result<map<nat, T>, AbortReason>)
    ensures r == Collect(me, expected, messages)
  {
    var m: map<nat, T> := map[];
    for i := 0 to |messages|
      invariant Collect(me, expected, messages[..i]) == Ok(m)
    {
      var message := messages[i];
      assert messages[..i + 1][..i] == messages[..i];
      if message.receiver != me {
        CollectErr(me, expected, messages, i + 1);
        return Err(MisroutedMessage(me, message.receiver));
      }
      if message.sender !in expected {
        CollectErr(me, expected, messages, i + 1);
        return Err(UnexpectedSender(message.sender));
      }
      if message.sender in m {
        CollectErr(me, expected, messages, i + 1);
        return Err(DuplicateSender(message.sender));
      }
      m := m[message.sender := message.body];
    }
    assert messages[..|messages|] == messages;
    r := Ok(m);
  }

  /** The first fault is the result. */
  lemma {:induction false} CollectErr<T>(me: nat, expected: set<nat>, messages: seq<Routed<T>>, n: nat)
    requires n <= |messages| && Collect(me, expected, messages[..n]).Err?
    ensures Collect(me, expected, messages) == Collect(me, expected, messages[..n])
    decreases |messages| - n
  {
    if n == |messages| {
      assert messages[..n] == messages;
    } else {
      assert messages[..n + 1][..n] == messages[..n];
      CollectErr(me, expected, messages, n + 1);
    }
  }

  /** Every message is for `me` and from an expected sender, and no two are from the same. */
  predicate WellRouted<T>(me: nat, expected: set<nat>, messages: seq<Routed<T>>) {
    && (forall i :: 0 <= i < |messages| ==> messages[i].receiver == me && messages[i].sender in expected)
    && (forall i, j :: 0 <= i < j < |messages| ==> messages[i].sender != messages[j].sender)
  }

  /** The messages under their senders, none lost. */
  predicate Grouped<T(==)>(m: map<nat, T>, messages: seq<Routed<T>>) {
    && |m| == |messages|
    && (forall i :: 0 <= i < |messages| ==> messages[i].sender in m && m[messages[i].sender] == messages[i].body)
    && (forall k :: k in m ==> exists i :: 0 <= i < |messages| && messages[i].sender == k)
  }

  lemma GroupedStep<T>(m: map<nat, T>, messages: seq<Routed<T>>, last: Routed<T>)
    requires Grouped(m, messages)
    ensures last.sender in m <==> exists i :: 0 <= i < |messages| && messages[i].sender == last.sender
    ensures last.sender !in m ==> Grouped(m[last.sender := last.body], messages + [last])
  {
    if last.sender !in m {
      var m', all := m[last.sender := last.body], messages + [last];
      forall k | k in m' ensures exists i :: 0 <= i < |all| && all[i].sender == k {
        if k == last.sender {
          assert all[|messages|].sender == k;
        } else {
          var i :| 0 <= i < |messages| && messages[i].sender == k;
          assert all[i].sender == k;
        }
      }
    }
  }

  /** Grouping succeeds exactly on well-routed messages, and loses none. */
  lemma {:induction false} CollectSpec<T>(me: nat, expected: set<nat>, messages: seq<Routed<T>>)
    ensures Collect(me, expected, messages).Ok? <==> WellRouted(me, expected, messages)
    ensures Collect(me, expected, messages).Ok? ==>
      Collect(me, expected, messages).value.Keys <= expected && Grouped(Collect(me, expected, messages).value, messages)
    decreases |messages|
  {
    if |messages| > 0 {
      var n := |messages| - 1;
      CollectSpec(me, expected, messages[..n]);
      var rest := Collect(me, expected, messages[..n]);
      if rest.Ok? {
        GroupedStep(rest.value, messages[..n], messages[n]);
      }
      WellRoutedStep(me, expected, messages[..n], messages[n]);
      assert messages[..n] + [messages[n]] == messages;
      hide Grouped, WellRouted;
    }
  }

  lemma WellRoutedStep<T>(me: nat, expected: set<nat>, messages: seq<Routed<T>>, last: Routed<T>)
    ensures WellRouted(me, expected, messages + [last])
       <==> && WellRouted(me, expected, messages)
            && last.receiver == me && last.sender in expected
            && !exists i :: 0 <= i < |messages| && messages[i].sender == last.sender
  {
    var all := messages + [last];
    forall i | 0 <= i < |messages| ensures all[i] == messages[i] {}
    assert all[|messages|] == last;
    if WellRouted(me, expected, all) {
      assert forall i :: 0 <= i < |messages| ==> all[i].sender != all[|messages|].sender;
    }
  }

  lemma SameSize(s: set<nat>, t: set<nat>)
    requires s <= t && |s| == |t|
    ensures s == t
  {
    assert |t - s| == |t| - |s|;
  }

  /** Once the count has been checked too, the senders are exactly the expected parties, so no
      later lookup can miss. */
  lemma SendersExact<T>(me: nat, expected: set<nat>, messages: seq<Routed<T>>)
    requires Collect(me, expected, messages).Ok?
    ensures |Collect(me, expected, messages).value| == |expected| <==> Collect(me, expected, messages).value.Keys == expected
  {
    CollectSpec(me, expected, messages);
    var m := Collect(me, expected, messages).value;
    assert |m| == |m.Keys|;
    if |m| == |expected| { SameSize(m.Keys, expected); }
  }

  /** A list, in any order, with exactly one message to `me` from every party in `bodies`. */
  predicate Delivered<T(==)>(me: nat, messages: seq<Routed<T>>, bodies: map<nat, T>) {
    && WellRouted(me, bodies.Keys, messages)
    && (forall i :: 0 <= i < |messages| ==> messages[i].sender in bodies && messages[i].body == bodies[messages[i].sender])
    && (forall k <- bodies :: exists i :: 0 <= i < |messages| && messages[i].sender == k)
  }

  /** Delivered messages are all found under their senders. */
  lemma CollectDelivered<T>(me: nat, messages: seq<Routed<T>>, bodies: map<nat, T>)
    requires Delivered(me, messages, bodies)
    ensures Collect(me, bodies.Keys, messages) == Ok(bodies)
  {
    CollectSpec(me, bodies.Keys, messages);
    var m := Collect(me, bodies.Keys, messages).value;
    forall k | k in bodies ensures k in m {
      var i :| 0 <= i < |messages| && messages[i].sender == k;
    }
    forall k | k in m ensures k in bodies && m[k] == bodies[k] {
      var i :| 0 <= i < |messages| && messages[i].sender == k;
    }
    assert m == bodies;
  }
}
