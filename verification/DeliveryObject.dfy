/** `Delivery` as the object the source keeps, over an `Inbox`. Each method is
    one stretch between two awaits, and its contract is the event of the machine
    in `Delivery` it performs, so every theorem over runs is about these. */
module DeliveryObject {
  import opened InboxLog
  import opened InboxStore
  import D = Delivery
  import Steps = DeliverySteps
  import opened InboxObject

  /** What the direct route answered for one message. */
  datatype Direct = Carried | TurnedAway | Unavailable

  class Delivery {
    const inbox: Inbox
    var counter: nat
    var offering: set<Sid>
    var claimed: map<Sid, set<Mid>>
    var remaining: map<Sid, seq<Message>>   // what each running offer's loop has still to send
    ghost var clock: int
    ghost var sends: map<Mid, D.Sending>
    ghost var holds: map<Mid, D.Sending>
    ghost var handed: seq<D.Handing>
    ghost var gone: set<Mid>
    ghost var answered: set<D.Sending>
    ghost var failures: map<Sid, nat>
    ghost var loaded: Held

    ghost predicate Valid()
      reads this
    {
      offering == remaining.Keys == claimed.Keys
    }

    ghost function Value(): D.State
      reads this, inbox
    {
      D.State(inbox.Value(), clock, counter, sends, holds, remaining, claimed, handed, gone, answered, failures, loaded)
    }

    /** A process starting over a loaded inbox. */
    constructor (inbox: Inbox, ghost now: int, ghost answered: set<D.Sending>)
      ensures this.inbox == inbox && Valid()
      ensures D.IsLastCounter(counter, inbox.held)
      ensures Value() == D.State(inbox.Value(), now, counter, map[], map[], map[], map[], [], {}, answered, map[], inbox.held)
    {
      this.inbox := inbox;
      offering, claimed, remaining := {}, map[], map[];
      clock, sends, holds, handed, gone, failures := now, map[], map[], [], {}, map[];
      this.answered, loaded := answered, inbox.held;
      new;
      counter := inbox.LastCounter();
    }

    /** `send` up to the direct route: the message is minted. */
    method SendArrives(sid: Sid, now: int, text: string) returns (m: Message)
      requires Valid() && clock <= now
      modifies this
      ensures Valid() && D.Next(old(Value()), D.Arrive(sid, now, text), Value(), inbox.limits)
      ensures m == Message(Own(old(counter) + 1), now, text) && sends == old(sends)[m.mid := D.Sending(sid, m)]
    {
      counter := counter + 1;
      m := Message(Own(counter), now, text);
      clock, sends := now, sends[m.mid := D.Sending(sid, m)];
    }

    /** The rest of `send` once the direct route answered: carried, published to
        a listening connection, or held. */
    method SendSettles(sid: Sid, m: Message, direct: Direct, listening: bool, published: bool, now: int)
        returns (delivered: bool)
      requires Valid() && clock <= now && m.mid in sends && sends[m.mid] == D.Sending(sid, m)
      modifies this, inbox
      ensures Valid() && delivered == (direct.Carried? || (direct.Unavailable? && listening && published))
      ensures handed == old(handed) + if delivered then [D.Handing(sid, m.mid)] else []
      ensures !delivered ==> m in Of(inbox.held, sid)
      ensures D.Next(old(Value()),
                     if direct.Carried? then D.SendCarried(m.mid, now)
                     else if delivered then D.SendPublished(m.mid) else D.SendWaits(m.mid, now),
                     Value(), inbox.limits)
    {
      if direct.Carried? {
        sends := sends - {m.mid};
        NoteHanded(sid, [m.mid]);
        OfferStarts(sid, now);
        return true;
      }
      if direct.Unavailable? && listening && published {
        sends := sends - {m.mid};
        NoteHanded(sid, [m.mid]);
        return true;
      }
      inbox.HoldBegins(sid, m, now);
      clock, holds := now, holds[m.mid := sends[m.mid]];
      sends := sends - {m.mid};
      return false;
    }

    ghost method NoteHanded(sid: Sid, mids: seq<Mid>)
      modifies this`handed, this`gone
      ensures Value() == D.NoteHanded(old(Value()), sid, mids)
    {
      handed := handed + D.HandingsOf(sid, mids);
      gone := gone + set mid <- mids;
    }

    /** `hold` answering its caller, once its add line has landed. */
    method HoldEnds(sid: Sid, mid: Mid) returns (evicted: bool)
      requires Valid() && mid in holds && holds[mid].sid == sid
      requires Add(sid, holds[mid].message) in Records(inbox.file)
      modifies this, inbox
      ensures Valid() && (evicted <==> |Of(old(inbox.held), sid)| > inbox.limits.perSid)
      ensures D.Next(old(Value()), D.HoldEnds(mid), Value(), inbox.limits)
    {
      ghost var before := inbox.Value();
      evicted := inbox.HoldResumes(sid);
      answered := answered + {holds[mid]};
      holds := holds - {mid};
      if evicted { gone := gone + {Of(before.held, sid)[0].mid}; }
    }

    /** `#offer` up to its first call of the direct route. */
    method OfferStarts(sid: Sid, now: int)
      requires Valid() && clock <= now
      modifies this, inbox
      ensures Valid() && Value() == D.DoOfferStarts(old(Value()), sid, now, inbox.limits)
    {
      clock := now;
      if sid in offering { return; }
      var held := inbox.Undelivered(sid, now);
      if held == [] { return; }
      Claim(sid, held);
    }

    /** The guard and the claim of an offer that has something to hand over. */
    method Claim(sid: Sid, held: seq<Message>)
      requires Valid()
      modifies this`offering, this`remaining, this`claimed
      ensures Valid() && remaining == old(remaining)[sid := held] && claimed == old(claimed)[sid := set m <- held :: m.mid]
    {
      offering := offering + {sid};
      remaining, claimed := remaining[sid := held], claimed[sid := set m <- held :: m.mid];
    }

    /** One turn of the offer's loop: the route answered for the oldest. */
    method OfferSettles(sid: Sid, direct: Direct)
      requires Valid() && sid in offering && remaining[sid] != []
      modifies this, inbox
      ensures Valid()
      ensures D.Next(old(Value()), if direct.Carried? then D.OfferCarried(sid) else D.OfferStops(sid), Value(), inbox.limits)
      ensures direct.Carried? ==> handed == old(handed) + [D.Handing(sid, old(remaining)[sid][0].mid)]
      ensures !direct.Carried? ==> handed == old(handed) && inbox.held == old(inbox.held)
    {
      if direct.Carried? {
        var m := remaining[sid][0];
        claimed := claimed[sid := claimed[sid] - {m.mid}];
        inbox.Delivered(sid, [m.mid]);
        remaining := remaining[sid := remaining[sid][1..]];
        NoteHanded(sid, [m.mid]);
      } else {
        OfferStops(sid);
      }
    }

    /** The offer's `finally`. */
    method OfferStops(sid: Sid)
      requires Valid()
      modifies this
      ensures Valid() && D.Next(old(Value()), D.OfferStops(sid), Value(), inbox.limits)
    {
      offering, claimed, remaining := offering - {sid}, claimed - {sid}, remaining - {sid};
    }

    /** `snapshot` for a session's own subscription. */
    method Snapshot(sid: Sid, now: int) returns (list: seq<Message>)
      requires Valid() && clock <= now
      modifies this, inbox
      ensures Valid() && D.Next(old(Value()), D.Subscribes(sid, now), Value(), inbox.limits)
      ensures var held, claims := Of(old(inbox.held), sid), if sid in old(claimed) then old(claimed)[sid] else {};
        Picks(list, held, Free(held, now, inbox.limits.retention, claims))
      ensures handed == old(handed) + D.HandingsOf(sid, D.Mids(list))
      ensures forall m :: m in list ==> m !in Of(inbox.held, sid)
    {
      ghost var before := Value();
      list := Unclaimed(sid, now);
      HandOver(sid, D.Mids(list));
      Steps.SnapshotDoes(before, Value(), sid, now, inbox.limits, list);
    }

    /** What is held and no offer has claimed. */
    method Unclaimed(sid: Sid, now: int) returns (list: seq<Message>)
      requires Valid() && clock <= now
      modifies this`clock, inbox
      ensures Valid() && Value() == old(Value()).(clock := now, store := Looked(old(inbox.Value()), sid, now, inbox.limits))
      ensures list == Without(Of(inbox.held, sid), D.Claimed(old(Value()), sid))
    {
      clock := now;
      var claims := if sid in claimed then claimed[sid] else {};
      var held := inbox.Undelivered(sid, now);
      list := Without(held, claims);
    }

    method HandOver(sid: Sid, mids: seq<Mid>)
      requires Valid()
      modifies inbox, this`handed, this`gone
      ensures Valid() && Value() == D.NoteHanded(old(Value()).(store := Hand(old(inbox.Value()), sid, mids)), sid, mids)
    {
      inbox.Delivered(sid, mids);
      NoteHanded(sid, mids);
    }

    /** The head of the append chain settles, and rejects the hold waiting for it
        when it could not be written. */
    method LineSettles(landed: bool)
      requires Valid() && inbox.written != []
      modifies this, inbox
      ensures Valid() && D.Next(old(Value()), if landed then D.Lands else D.Fails, Value(), inbox.limits)
    {
      ghost var before, line := Value(), inbox.written[0];
      inbox.Settle(landed);
      if !landed && line.Add? && line.message.mid in holds {
        holds := holds - {line.message.mid};
        failures := failures[line.sid := D.FailuresOf(before, line.sid) + 1];
      }
    }
  }

  /** A kill, and the next process over the file it left: the inbox is loaded
      before the delivery domain is built on it. */
  method Restart(before: Delivery, torn: bool, now: int) returns (after: Delivery, ghost order: seq<Sid>)
    requires before.Valid() && before.clock <= now
    ensures after.Valid() && fresh(after) && fresh(after.inbox) && after.inbox.limits == before.inbox.limits
    ensures D.Next(before.Value(), D.Restarts(now, torn, order), after.Value(), before.inbox.limits)
  {
    var lines := if torn then before.inbox.file + [Refused] else before.inbox.file;
    var inbox := new Inbox(before.inbox.limits, lines);
    order := inbox.Load(now);
    ghost var answered := set a | a in before.answered && a.message.mid !in before.gone;
    after := new Delivery(inbox, now, answered);
  }
}
