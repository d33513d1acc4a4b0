/**
 The hub of reverse-query sessions. Sessions and result channels live in tables
 that stand for the heap: a session is its position in the table of all sessions
 ever opened, a result channel the number of its request.
 */
module SessionHub {
  import opened Wrappers

  datatype Reply = Reply(json: string, failed: bool)

  datatype Command = Command(request: nat, cancel: bool)

  datatype Session = Session(node: int, secret: string, history: bool, live: bool, commands: seq<Command>,
    pending: set<nat>)

  /** A result channel with room for one result, and everything ever completed for its request. */
  datatype Mail = Mail(buffer: Option<Reply>, completed: seq<Reply>, taken: bool)

  datatype Outcome = Answer(reply: Reply) | Offline | Unsupported | Busy | Expired

  const MAX_PENDING := 32
  const MAX_COMMANDS := 64

  /** While its request waits, a channel holds the first result completed for it. */
  ghost predicate Honest(mail: Mail) {
    !mail.taken ==> mail.buffer == if mail.completed == [] then None else Some(mail.completed[0])
  }

  /** What happens to a channel while its request waits: results are only added. */
  ghost predicate Waited(before: Mail, after: Mail) {
    before.completed <= after.completed && after.taken == before.taken
  }

  class Hub {
    var sessions: map<int, nat>
    var closed: bool
    var next: nat // the last request number handed out
    var table: seq<Session>
    var mail: map<nat, Mail>

    /** The hub's entries are sessions of their nodes, and every other session is cancelled. */
    ghost predicate Registered()
      reads this
    {
      && (forall node :: node in sessions ==> sessions[node] < |table| && table[sessions[node]].node == node)
      && (forall s :: 0 <= s < |table| && table[s].live ==>
            !closed && table[s].node in sessions && sessions[table[s].node] == s)
      && (closed ==> sessions == map[])
    }

    ghost predicate Bounded()
      reads this
    {
      forall s :: 0 <= s < |table| ==> |table[s].pending| <= MAX_PENDING && |table[s].commands| <= MAX_COMMANDS
    }

    /** A pending request has a channel, its number was handed out, and one session waits for it. */
    ghost predicate Numbered()
      reads this
    {
      && (forall r :: r in mail ==> r <= next && Honest(mail[r]))
      && (forall s, r :: 0 <= s < |table| && r in table[s].pending ==> r in mail)
      && (forall s, t, r :: 0 <= s < t < |table| && r in table[s].pending ==> r !in table[t].pending)
    }

    ghost predicate Valid()
      reads this
    {
      Registered() && Bounded() && Numbered()
    }

    /** No two live sessions of one node, and none at all once the hub is closed. */
    lemma OneLiveSession(s: nat, t: nat)
      requires Valid() && s < |table| && t < |table| && table[s].live && table[t].live
      ensures !closed && (table[s].node == table[t].node ==> s == t)
    {
    }

    constructor ()
      ensures Valid() && !closed && table == [] && sessions == map[]
    {
      sessions, closed, next, table, mail := map[], false, 0, [], map[];
    }

    method CancelSession(s: nat)
      requires Valid() && s < |table|
      modifies `table
      ensures Valid() && table == old(table)[s := old(table)[s].(live := false)]
    {
      table := table[s := table[s].(live := false)];
    }

    /** The session becomes its node's own; no other of the node may be live. */
    method Register(session: Session)
      requires Valid() && !closed && session.live && session.pending == {} && session.commands == []
      requires forall t :: 0 <= t < |table| && table[t].node == session.node ==> !table[t].live
      modifies `table, `sessions
      ensures Valid() && table == old(table) + [session] && sessions == old(sessions)[session.node := |old(table)|]
    {
      table := table + [session];
      sessions := sessions[session.node := |table| - 1];
    }

    /** A new session replaces and cancels the previous one of its node; a closed hub cancels it at once. */
    method Open(node: int, secret: string, history: bool) returns (s: nat)
      requires Valid()
      modifies `table, `sessions
      ensures Valid() && s == |old(table)| && |table| == s + 1
      ensures table[s] == Session(node, secret, history, !closed, [], {})
      ensures !closed ==> sessions == old(sessions)[node := s]
      ensures closed ==> sessions == old(sessions)
      ensures forall t :: 0 <= t < s ==>
        table[t] == if table[t].node == node then old(table)[t].(live := false) else old(table)[t]
    {
      s := |table|;
      var session := Session(node, secret, history, true, [], {});
      if closed {
        table := table + [session.(live := false)];
        return;
      }
      if node in sessions {
        CancelSession(sessions[node]);
      }
      Register(session);
    }

    /** Ends a session; another session of its node keeps its entry. */
    method Remove(s: nat)
      requires Valid() && s < |table|
      modifies `table, `sessions
      ensures Valid() && table == old(table)[s := old(table)[s].(live := false)]
      ensures forall node :: node in sessions <==> node in old(sessions) && old(sessions)[node] != s
      ensures forall node :: node in sessions ==> sessions[node] == old(sessions)[node]
    {
      CancelSession(s);
      var node := table[s].node;
      if node in sessions && sessions[node] == s {
        sessions := sessions - {node};
      }
    }

    /** Every registered session is cancelled, and nothing else about any session changes. */
    method CancelAll()
      requires forall node :: node in sessions ==> sessions[node] < |table|
      modifies `table
      ensures |table| == |old(table)|
      ensures forall s :: 0 <= s < |table| ==> table[s] == old(table)[s] || table[s] == old(table)[s].(live := false)
      ensures forall node :: node in sessions ==> !table[sessions[node]].live
    {
      var left := sessions.Keys;
      while left != {}
        invariant left <= sessions.Keys && |table| == |old(table)|
        invariant forall s :: 0 <= s < |table| ==>
          table[s] == old(table)[s] || table[s] == old(table)[s].(live := false)
        invariant forall node :: node in sessions && node !in left ==> !table[sessions[node]].live
        decreases |left|
      {
        var node := Pick(left);
        left := left - {node};
        table := table[sessions[node] := table[sessions[node]].(live := false)];
      }
    }

    method Close()
      requires Valid()
      modifies `table, `sessions, `closed
      ensures Valid() && closed && sessions == map[] && |table| == |old(table)|
      ensures forall s :: 0 <= s < |table| ==> table[s] == old(table)[s].(live := false)
    {
      CancelAll();
      forall s | 0 <= s < |table|
        ensures !table[s].live
      {
        var node := old(table)[s].node;
        if old(table)[s].live {
          assert node in sessions && sessions[node] == s;
        }
      }
      closed := true;
      sessions := map[];
    }

    /** A reply finds the channel of its own request only, and is dropped if one is there already. */
    method Complete(s: nat, request: nat, reply: Reply)
      requires Valid() && s < |table|
      modifies `mail
      ensures Valid()
      ensures request !in old(table)[s].pending ==> mail == old(mail)
      ensures request in old(table)[s].pending ==>
        mail == old(mail)[request := Delivered(old(mail)[request], reply)]
    {
      if request in table[s].pending {
        Send(request, reply);
      }
    }

    /** A send that never blocks: with the buffer full the reply is lost. */
    method Send(request: nat, reply: Reply)
      requires Valid() && request in mail
      modifies `mail
      ensures Valid() && mail == old(mail)[request := Delivered(old(mail)[request], reply)]
    {
      mail := mail[request := Delivered(mail[request], reply)];
    }

    // ---- One query ----

    /** Registers a request under a new number, unless the session has too many. */
    method Begin(s: nat) returns (request: Option<nat>)
      requires Valid() && s < |table|
      modifies `next, `mail, `table
      ensures Valid() && next == old(next) + 1 && |table| == |old(table)|
      ensures request.None? <==> |old(table)[s].pending| >= MAX_PENDING
      ensures request.None? ==> table == old(table) && mail == old(mail)
      ensures request.Some? ==>
        && request == Some(next) && next !in old(mail)
        && table == old(table)[s := old(table)[s].(pending := old(table)[s].pending + {next})]
        && mail == old(mail)[next := Mail(None, [], false)]
    {
      next := next + 1;
      if |table[s].pending| >= MAX_PENDING {
        return None;
      }
      assert forall t :: 0 <= t < |table| && next in table[t].pending ==> next in mail;
      mail := mail[next := Mail(None, [], false)];
      table := table[s := table[s].(pending := table[s].pending + {next})];
      assert forall t, r :: 0 <= t < |table| && r in table[t].pending ==> r == next || r in old(table)[t].pending;
      return Some(next);
    }

    /** Puts a command on the session's queue if there is room. */
    method Push(s: nat, command: Command) returns (ok: bool)
      requires Valid() && s < |table|
      modifies `table
      ensures Valid() && |table| == |old(table)| && ok == (|old(table)[s].commands| < MAX_COMMANDS)
      ensures table == if ok then old(table)[s := old(table)[s].(commands := old(table)[s].commands + [command])]
        else old(table)
    {
      ok := |table[s].commands| < MAX_COMMANDS;
      if ok {
        table := table[s := table[s].(commands := table[s].commands + [command])];
      }
    }

    method Forget(s: nat, request: nat)
      requires Valid() && s < |table|
      modifies `table
      ensures Valid() && table == old(table)[s := old(table)[s].(pending := old(table)[s].pending - {request})]
    {
      table := table[s := table[s].(pending := table[s].pending - {request})];
    }

    /** Receives the buffered result. */
    method Take(request: nat) returns (reply: Reply)
      requires Valid() && request in mail && !mail[request].taken && mail[request].buffer.Some?
      modifies `mail
      ensures Valid() && old(mail)[request].completed != [] && reply == old(mail)[request].completed[0]
      ensures mail == old(mail)[request := old(mail)[request].(buffer := None, taken := true)]
    {
      reply := mail[request].buffer.value;
      mail := mail[request := mail[request].(buffer := None, taken := true)];
    }

    /** The request waits in its session, and nothing but replies happened to its channel. */
    ghost predicate Waiting(s: nat, request: nat)
      reads this
    {
      s < |table| && request in table[s].pending && request in mail && !mail[request].taken
    }

    /** What the other goroutines leave alone: the sessions' identities, and my request and its channel. */
    twostate predicate Kept(s: nat, mine: Option<nat>)
      reads this
    {
      && old(next) <= next && |old(table)| <= |table| && old(mail).Keys <= mail.Keys
      && (forall t :: 0 <= t < |old(table)| ==>
        table[t].node == old(table)[t].node && table[t].history == old(table)[t].history)
      && (mine.Some? && mine.value in old(mail) ==>
            Waiting(s, mine.value) && Waited(old(mail)[mine.value], mail[mine.value]))
    }

    method OtherSession(s: nat, mine: Option<nat>)
      requires Valid() && (mine.Some? ==> Waiting(s, mine.value))
      modifies `table, `sessions, `closed
      ensures Valid() && Kept(s, mine)
    {
      var step, t, node: int := *, *, *;
      var secret: string := *;
      var history: bool := *;
      if step == 0 {
        var _ := Open(node, secret, history);
      } else if step == 1 {
        Close();
      } else if 0 <= t < |table| {
        Remove(t);
      }
    }

    method OtherQueue(s: nat, mine: Option<nat>, t: nat)
      requires Valid() && (mine.Some? ==> Waiting(s, mine.value)) && t < |table|
      modifies `table
      ensures Valid() && Kept(s, mine)
    {
      var step, r: int := *, *;
      var cancel: bool := *;
      if step == 0 && r >= 0 {
        var _ := Push(t, Command(r, cancel));
      } else if step == 1 && table[t].commands != [] {
        table := table[t := table[t].(commands := table[t].commands[1..])];
      }
    }

    method OtherRequest(s: nat, mine: Option<nat>, t: nat)
      requires Valid() && (mine.Some? ==> Waiting(s, mine.value)) && t < |table|
      modifies `table, `next, `mail
      ensures Valid() && Kept(s, mine)
    {
      var step, r: int := *, *;
      var json: string := *;
      var failed: bool := *;
      if step == 0 {
        var _ := Begin(t);
      } else if step == 1 && r in mail.Keys {
        Send(r, Reply(json, failed)); // also after its request has gone
      } else if step == 2 && r >= 0 && mine != Some(r) {
        Forget(t, r);
      } else if step == 3 && r in mail.Keys && mine != Some(r) && !mail[r].taken && mail[r].buffer.Some? {
        var _ := Take(r);
      }
    }

    /** Any steps of the other goroutines: none forgets my request or receives from its channel. */
    method Others(s: nat, mine: Option<nat>)
      requires Valid() && (mine.Some? ==> Waiting(s, mine.value))
      modifies this
      ensures Valid() && Kept(s, mine)
    {
      var n: int := *;
      var i := 0;
      while i < n
        invariant Valid() && Kept(s, mine) && (mine.Some? ==> Waiting(s, mine.value))
      {
        var kind, t: int := *, *;
        if kind == 0 {
          OtherSession(s, mine);
        } else if 0 <= t < |table| {
          if kind == 1 {
            OtherQueue(s, mine, t);
          } else {
            OtherRequest(s, mine, t);
          }
        }
        i := i + 1;
      }
    }

    /**
     The session that was the node's live one when it was looked up. It is
     authenticated with the lock released, so by now it may be cancelled or
     replaced; one that does not authenticate as its node is removed.
     */
    method Current(node: int) returns (s: Option<nat>)
      requires Valid()
      modifies this
      ensures Valid() && Kept(0, None)
      ensures s.Some? ==>
        && node in old(sessions) && old(sessions)[node] == s.value && old(table)[s.value].live
        && s.value < |table| && table[s.value].node == node
      ensures node !in old(sessions) || !old(table)[old(sessions)[node]].live ==> s.None?
    {
      if node !in sessions || !table[sessions[node]].live {
        return None;
      }
      var found := sessions[node];
      Others(0, None);
      var authentic: bool := *;
      if !authentic {
        Remove(found);
        return None;
      }
      return Some(found);
    }

    /**
     Sends the query and waits for its result, for the end of the session, or for
     its own deadline; when several are ready, any of them may be taken.
     */
    method Await(s: nat, request: nat) returns (outcome: Outcome)
      requires Valid() && Waiting(s, request)
      modifies this
      ensures Valid() && s < |table| && request in table[s].pending && request in mail
      ensures outcome.Answer? ==>
        old(mail)[request].completed <= mail[request].completed && mail[request].completed != []
        && outcome.reply == mail[request].completed[0]
      ensures outcome.Offline? ==> !table[s].live
      ensures outcome.Busy? ==> |table[s].commands| == MAX_COMMANDS
      ensures outcome != Unsupported
    {
      Others(s, Some(request));
      var closing, expired: bool := *, *;
      if closing && !table[s].live {
        return Offline;
      } else if expired {
        return Expired;
      }
      var pushed := Push(s, Command(request, false));
      if !pushed {
        return if table[s].live then Busy else Offline;
      }
      Others(s, Some(request));
      var ready: int := *;
      if ready == 0 && mail[request].buffer.Some? {
        var reply := Take(request);
        return Answer(reply);
      } else if ready == 1 && !table[s].live {
        return Offline;
      }
      var cancelled := Push(s, Command(request, true));
      if !cancelled {
        CancelSession(s);
      }
      return Expired;
    }

    /**
     One query of a node: at most MAX_PENDING wait in a session, and an answer is
     the first reply completed for the number this query was given.
     */
    method History(node: int) returns (outcome: Outcome, request: nat)
      requires Valid()
      modifies this
      ensures Valid() && (outcome.Answer? ==> request !in old(mail) && request in mail && mail[request].completed != []
                                              && outcome.reply == mail[request].completed[0])
      ensures request > 0 ==> forall s :: 0 <= s < |table| ==> request !in table[s].pending
      ensures outcome.Answer? ==> request > 0
    {
      request := 0;
      Others(0, None);
      var current := Current(node);
      if current.None? {
        return Offline, 0;
      }
      var s := current.value;
      Others(s, None);
      if !table[s].history {
        return Unsupported, 0;
      }
      var begun := Begin(s);
      if begun.None? {
        return Busy, 0;
      }
      request := begun.value;
      outcome := Await(s, request);
      Forget(s, request);
    }
  }

  function Delivered(mail: Mail, reply: Reply): Mail {
    mail.(buffer := if mail.buffer.None? then Some(reply) else mail.buffer, completed := mail.completed + [reply])
  }
}
