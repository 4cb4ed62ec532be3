/** `Inbox` as the object the source keeps: a map of lists changed in place, a
    file, and a chain of appends. Each method is one stretch between two awaits
    and is tied to the store function that specifies it. */
module InboxObject {
  import opened InboxLog
  import opened InboxStore
  import Delivery

  class Inbox {
    const limits: Limits
    var held: Held
    var file: seq<Line>
    var written: seq<Record>   // appends asked for and not yet landed, in order
    ghost var asked: seq<Record>
    ghost var lost: bool

    ghost function Value(): Store
      reads this
    {
      Store(held, file, written, asked, lost)
    }

    constructor (limits: Limits, file: seq<Line>)
      ensures this.limits == limits && Value() == Store(map[], file, [], [], false)
    {
      this.limits, this.file := limits, file;
      held, written, asked, lost := map[], [], [], false;
    }

    /** `#append`: the record joins the chain last. */
    method Append(record: Record)
      modifies this`written, this`asked
      ensures Value() == Ask(old(Value()), [record])
    {
      written, asked := written + [record], asked + [record];
    }

    /** `#expire(now, sid)`. */
    method Expire(sid: Sid, now: int)
      modifies this`held
      ensures Value() == Looked(old(Value()), sid, now, limits)
    {
      if sid in held {
        var left := Live(held[sid], now, limits.retention);
        if |left| != |held[sid]| {
          if left == [] { held := held - {sid}; } else { held := held[sid := left]; }
        }
      }
    }

    method ExpireEverySession(now: int)
      modifies this`held
      ensures held == ExpireAll(old(held), now, limits.retention)
    {
      var left, before := held.Keys, held;
      while left != {}
        invariant left <= held.Keys && forall sid :: sid in left ==> held[sid] == before[sid]
        invariant left <= before.Keys
        invariant forall sid :: sid !in left ==>
          (sid in held <==> sid in ExpireAll(before, now, limits.retention))
          && (sid in held ==> held[sid] == ExpireAll(before, now, limits.retention)[sid])
        decreases left
      {
        var sid :| sid in left;
        var list := Live(held[sid], now, limits.retention);
        LiveHolds(held[sid], now, limits.retention);
        if |list| != |held[sid]| {
          if list == [] { held := held - {sid}; } else { held := held[sid := list]; }
        }
        left := left - {sid};
      }
    }

    /** `#replay`. */
    method ReplayLine(record: Record)
      modifies this`held
      ensures held == Replayed(old(held), record)
    {
      match record
      case Add(sid, m) =>
        if sid !in held { held := held[sid := []]; }
        held := held[sid := held[sid] + [m]];
      case _ =>
        if record.sid in held {
          var left := Without(held[record.sid], {record.mid});
          if left == [] { held := held - {record.sid}; } else { held := held[record.sid := left]; }
        }
    }

    /** `load`, on an inbox nothing has been put into yet. */
    method Load(now: int) returns (ghost order: seq<Sid>)
      requires held == map[] && written == []
      modifies this
      ensures IsOrderOf(order, held) && Value() == Loaded(old(file), now, limits, order)
    {
      var i := 0;
      assert file[..0] == [];
      while i < |file|
        invariant 0 <= i <= |file| && file == old(file) && written == []
        invariant held == Replay(Records(file[..i]))
      {
        assert file[..i + 1] == file[..i] + [file[i]];
        RecordsSnoc(file[..i], file[i]);
        match file[i] {
          case Refused =>
          case Stated(record) =>
            ReplaySnoc(Records(file[..i]), record);
            ReplayLine(record);
        }
        i := i + 1;
      }
      assert file[..i] == file;
      ExpireEverySession(now);
      order := Compact();
      lost := false;
    }

    method AddLines(sid: Sid, list: seq<Message>) returns (lines: seq<Line>)
      ensures lines == Lines(AddsOf(sid, list))
    {
      lines := [];
      var k := 0;
      while k < |list|
        invariant 0 <= k <= |list| && lines == Lines(AddsOf(sid, list[..k]))
      {
        assert list[..k + 1][..k] == list[..k];
        LinesConcat(AddsOf(sid, list[..k]), [Add(sid, list[k])]);
        lines := lines + [Stated(Add(sid, list[k]))];
        k := k + 1;
      }
      assert list[..k] == list;
    }

    /** `#compact`: the file becomes one add line per held message. */
    method Compact() returns (ghost order: seq<Sid>)
      modifies this`file, this`asked
      ensures IsOrderOf(order, held)
      ensures asked == Compacted(held, order) && file == Lines(Compacted(held, order))
    {
      var lines: seq<Line>, left := [], held.Keys;
      order := [];
      while left != {}
        invariant left <= held.Keys && lines == Lines(Compacted(held, order))
        invariant forall sid :: sid in order <==> sid in held && sid !in left
        invariant forall i, j :: 0 <= i < j < |order| ==> order[i] != order[j]
        decreases left
      {
        var sid :| sid in left;
        var adds := AddLines(sid, held[sid]);
        CompactedOne(held, order, sid);
        lines := lines + adds;
        order, left := order + [sid], left - {sid};
      }
      file := lines;
      asked := Compacted(held, order);
    }

    /** `undelivered`. */
    method Undelivered(sid: Sid, now: int) returns (list: seq<Message>)
      modifies this`held
      ensures Value() == Looked(old(Value()), sid, now, limits)
      ensures list == Of(held, sid)
    {
      Expire(sid, now);
      list := if sid in held then held[sid] else [];
    }

    /** `hold` up to the await of its add line. */
    method HoldBegins(sid: Sid, m: Message, now: int)
      modifies this`held, this`written, this`asked
      ensures Value() == InboxStore.HoldBegins(old(Value()), sid, m, now, limits)
    {
      Expire(sid, now);
      if sid !in held { held := held[sid := []]; }
      held := held[sid := held[sid] + [m]];
      Append(Add(sid, m));
    }

    /** `hold` once that line has landed. */
    method HoldResumes(sid: Sid) returns (evicted: bool)
      modifies this`held, this`written, this`asked
      ensures evicted <==> |Of(old(held), sid)| > limits.perSid
      ensures !evicted ==> Value() == old(Value())
      ensures evicted ==> Of(held, sid) == Of(old(held), sid)[1..] && written == old(written) + [Dropped(sid, Of(old(held), sid)[0].mid)]
      ensures Value() == InboxStore.HoldResumes(old(Value()), sid, limits)
    {
      var standing := if sid in held then held[sid] else [];
      evicted := |standing| > limits.perSid;
      if evicted {
        held := held[sid := standing[1..]];
        Append(Dropped(sid, standing[0].mid));
      }
    }

    /** `delivered`. */
    method Delivered(sid: Sid, mids: seq<Mid>)
      modifies this`held, this`written, this`asked
      ensures Value() == Hand(old(Value()), sid, mids)
    {
      if sid !in held || mids == [] { return; }
      var left := Without(held[sid], set mid <- mids);
      if left == [] { held := held - {sid}; } else { held := held[sid := left]; }
      var i := 0;
      assert mids[..0] == [];
      while i < |mids|
        invariant 0 <= i <= |mids|
        invariant held == Put(old(held), sid, left) && file == old(file) && lost == old(lost)
        invariant written == old(written) + DeliveredLines(sid, mids[..i])
        invariant asked == old(asked) + DeliveredLines(sid, mids[..i])
      {
        assert mids[..i + 1][..i] == mids[..i];
        Append(InboxLog.Delivered(sid, mids[i]));
        i := i + 1;
      }
      assert mids[..i] == mids;
    }

    /** The head of the chain lands, or could not be written. */
    method Settle(landed: bool)
      requires written != []
      modifies this`file, this`written, this`lost
      ensures Value() == if landed then Lands(old(Value())) else LineFails(old(Value()))
    {
      if landed { file := file + [Stated(written[0])]; } else { lost := true; }
      written := written[1..];
    }

    /** `lastCounter` for this instance's own prefix. */
    method LastCounter() returns (highest: nat)
      ensures Delivery.IsLastCounter(highest, held)
    {
      highest := 0;
      var left := held.Keys;
      while left != {}
        invariant left <= held.Keys
        invariant forall sid, m :: sid !in left && m in Of(held, sid) && m.mid.Own? ==> m.mid.counter <= highest
        invariant highest > 0 ==> exists sid, m :: m in Of(held, sid) && m.mid == Own(highest)
        decreases left
      {
        var sid :| sid in left;
        var k := 0;
        ghost var floor := highest;
        while k < |held[sid]|
          invariant 0 <= k <= |held[sid]| && floor <= highest
          invariant forall m :: m in held[sid][..k] && m.mid.Own? ==> m.mid.counter <= highest
          invariant highest > 0 ==> exists sid, m :: m in Of(held, sid) && m.mid == Own(highest)
        {
          var m := held[sid][k];
          assert held[sid][..k + 1] == held[sid][..k] + [m];
          if m.mid.Own? && m.mid.counter > highest {
            highest := m.mid.counter;
            assert m in Of(held, sid);
          }
          k := k + 1;
        }
        assert held[sid][..k] == held[sid];
        left := left - {sid};
      }
    }
  }

  lemma CompactedOne(held: Held, order: seq<Sid>, sid: Sid)
    requires sid in held
    ensures Lines(Compacted(held, order + [sid])) == Lines(Compacted(held, order)) + Lines(AddsOf(sid, held[sid]))
  {
    assert (order + [sid])[..|order|] == order;
    LinesConcat(Compacted(held, order), AddsOf(sid, held[sid]));
  }
}
