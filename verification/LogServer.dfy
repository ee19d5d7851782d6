/** The log server that the synchroniser is run against: three append-only message logs and the
    difference between a client's counters and their ends. */
module LogServer {
  import opened PeerEntities
  import opened Telegram

  datatype Logs = Logs(date: int, common: seq<Message>, secret: seq<Message>, channels: map<int, seq<Message>>)

  /** The channel messages newer than date, as channel updates. */
  function NewerThan(id: int, msgs: seq<Message>, date: int): seq<TgUpdate> {
    if msgs == [] then []
    else
      var last := |msgs| - 1;
      NewerThan(id, msgs[..last], date)
      + if msgs[last].date > date then [ChannelPts(id, last + 1, 1, msgs[last], false)] else []
  }

  /** The channels are visited in the given order, which Go leaves open. */
  function OtherUpdates(channels: map<int, seq<Message>>, order: seq<int>, date: int): seq<TgUpdate>
    requires forall id :: id in order ==> id in channels
  {
    if order == [] then []
    else
      var last := |order| - 1;
      OtherUpdates(channels, order[..last], date) + NewerThan(order[last], channels[order[last]], date)
  }

  ghost predicate VisitsAll(order: seq<int>, channels: map<int, seq<Message>>) {
    && (forall id :: id in order <==> id in channels)
    && (forall i, j :: 0 <= i < j < |order| ==> order[i] != order[j])
  }

  function After(msgs: seq<Message>, n: nat): seq<Message> {
    if n <= |msgs| then msgs[n..] else []
  }

  /** A new event starts; every message gets the date of its event. */
  function NextEvent(s: Logs): Logs {
    s.(date := s.date + 1)
  }

  function WithCommon(s: Logs, text: string): Logs {
    s.(common := s.common + [Message(text, s.date)])
  }

  function WithSecret(s: Logs, text: string): Logs {
    s.(secret := s.secret + [Message(text, s.date)])
  }

  function ChannelLog(s: Logs, id: int): seq<Message> {
    if id in s.channels then s.channels[id] else []
  }

  function WithChannel(s: Logs, id: int, text: string): Logs {
    s.(channels := s.channels[id := ChannelLog(s, id) + [Message(text, s.date)]])
  }

  /** A counted update names a message that stands at that place of the log. */
  predicate Genuine(u: TgUpdate, srv: Logs) {
    match u
    case CommonPts(pts, ptsCount, msg) => ptsCount == 1 && 1 <= pts <= |srv.common| && srv.common[pts - 1] == msg
    case CommonQts(qts, msg) => 1 <= qts <= |srv.secret| && srv.secret[qts - 1] == msg
    case _ => true
  }

  function GetState(s: Logs): State {
    State(|s.common|, |s.secret|, s.date, 0)
  }

  function GetDifference(s: Logs, pts: nat, qts: nat, date: int, order: seq<int>, ents: Entities): Difference
    requires VisitsAll(order, s.channels)
  {
    var common, secret := After(s.common, pts), After(s.secret, qts);
    var others := OtherUpdates(s.channels, order, date);
    if common == [] && secret == [] && others == [] then DifferenceEmpty(s.date, 0)
    else Difference(common, secret, others, ents, GetState(s))
  }

  /** An incomplete answer: the next n and m messages of the two user logs, and the state that
      they lead to. */
  function GetSlice(s: Logs, pts: nat, qts: nat, n: nat, m: nat, others: seq<TgUpdate>, ents: Entities,
                    date: int, seqNo: int): Difference
    requires pts + n <= |s.common| && qts + m <= |s.secret|
  {
    DifferenceSlice(s.common[pts..pts + n], s.secret[qts..qts + m], others, ents,
                    State(pts + n, qts + m, date, seqNo))
  }

  class Server {
    var date: int
    var common: seq<Message>
    var secret: seq<Message>
    var channels: map<int, seq<Message>>

    function Value(): Logs
      reads this
    {
      Logs(date, common, secret, channels)
    }

    constructor ()
      ensures Value() == Logs(1, [], [], map[])
    {
      date, common, secret, channels := 1, [], [], map[];
    }

    method UpdatesGetState() returns (st: State)
      ensures st == GetState(Value())
    {
      st := State(|common|, |secret|, date, 0);
    }

    method CreateEvent()
      modifies this
      ensures Value() == NextEvent(old(Value()))
    {
      date := date + 1;
    }

    /** Sends a message to a user or a group; the update announces its place in the log. */
    method SendCommon(text: string) returns (u: TgUpdate)
      modifies this
      ensures Value() == WithCommon(old(Value()), text)
      ensures u.CommonPts? && u.pts == |common| && Genuine(u, Value())
    {
      var msg := Message(text, date);
      common := common + [msg];
      u := CommonPts(|common|, 1, msg);
    }

    method SendChannel(id: int, text: string) returns (u: TgUpdate)
      modifies this
      ensures Value() == WithChannel(old(Value()), id, text)
      ensures var msgs := ChannelLog(Value(), id);
        u == ChannelPts(id, |msgs|, 1, msgs[|msgs| - 1], false)
    {
      var msg := Message(text, date);
      var msgs := (if id in channels then channels[id] else []) + [msg];
      channels := channels[id := msgs];
      u := ChannelPts(id, |msgs|, 1, msg, false);
    }

    /** Entities are not filled in from the peer database but passed in. */
    method UpdatesGetDifference(pts: nat, qts: nat, sinceDate: int, order: seq<int>, ents: Entities)
      returns (diff: Difference)
      requires VisitsAll(order, channels)
      ensures diff == GetDifference(Value(), pts, qts, sinceDate, order, ents)
    {
      var prepared := MessagesAfter(common, pts);
      var encrypted := MessagesAfter(secret, qts);
      var others: seq<TgUpdate> := [];
      for k := 0 to |order|
        invariant others == OtherUpdates(channels, order[..k], sinceDate)
      {
        var msgs := channels[order[k]];
        ghost var before := others;
        for i := 0 to |msgs|
          invariant others == before + NewerThan(order[k], msgs[..i], sinceDate)
        {
          assert msgs[..i + 1][..i] == msgs[..i];
          if msgs[i].date > sinceDate {
            others := others + [ChannelPts(order[k], i + 1, 1, msgs[i], false)];
          }
        }
        assert msgs[..|msgs|] == msgs;
        assert order[..k + 1][..k] == order[..k];
      }
      assert order[..|order|] == order;
      if |prepared| == 0 && |encrypted| == 0 && |others| == 0 {
        return DifferenceEmpty(date, 0);
      }
      return Difference(prepared, encrypted, others, ents, State(|common|, |secret|, date, 0));
    }

    /** The loop over one of the two user logs. */
    static method MessagesAfter(msgs: seq<Message>, n: nat) returns (after: seq<Message>)
      ensures after == After(msgs, n)
    {
      after := [];
      var i := n + 1;
      while i <= |msgs|
        invariant n + 1 <= i && (n <= |msgs| ==> i <= |msgs| + 1)
        invariant after == if n <= |msgs| then msgs[n..i - 1] else []
      {
        after := after + [msgs[i - 1]];
        i := i + 1;
      }
    }
  }
}
