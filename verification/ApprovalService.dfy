/**
  `ApprovalService`: the methods that reload, change and save the shared store.  Each method is
  proved against the transaction body of module ApprovalStore.
*/
module ApprovalServices {
  import opened Wrappers
  import opened ApprovalStore

  datatype FileState = Missing | Format3(approvals: Store) | OtherFormat

  /** The store file on disk; several services may share one. */
  class StoreFile {
    var state: FileState

    constructor ()
      ensures state == Missing
    {
      state := Missing;
    }
  }

  datatype ServiceError = UnsupportedFormat | MultipleLiveApprovals

  class ApprovalService {
    const file: StoreFile?
    const ttl: int
    var approvals: Store

    /** What a transaction sees after its reload. */
    ghost function Contents(): Store
      reads this, file
    {
      if file == null then approvals else if file.state.Format3? then file.state.approvals else map[]
    }

    ghost predicate Readable()
      reads this, file
    {
      file == null || !file.state.OtherFormat?
    }

    ghost predicate Valid()
      reads this, file
    {
      1 <= ttl && (Readable() ==> StoreInv(Contents()))
    }

    constructor (file: StoreFile?, ttl: int)
      requires 1 <= ttl
      requires file != null && file.state.Format3? ==> StoreInv(file.state.approvals)
      ensures Valid() && this.file == file && this.ttl == ttl
      ensures file == null ==> Contents() == map[]
    {
      this.file := file;
      this.ttl := ttl;
      approvals := map[];
    }

    method LoadUnlocked() returns (ok: bool)
      modifies `approvals
      ensures ok == old(Readable())
      ensures ok ==> approvals == old(Contents())
    {
      if file == null {
        ok := true;
      } else {
        match file.state {
          case Missing => approvals, ok := map[], true;
          case Format3(stored) => approvals, ok := stored, true;
          case OtherFormat => ok := false;
        }
      }
    }

    method SaveUnlocked()
      requires Readable()
      modifies file
      ensures Readable() && Contents() == approvals
    {
      if file != null {
        file.state := Format3(approvals);
      }
    }

    /** The first stored record with this key hash; keys are unique, so the order is immaterial. */
    method FirstWithKey(key: Digest) returns (holder: Option<string>)
      requires StoreInv(approvals)
      ensures holder == FindKey(approvals, Some(key))
    {
      var todo := approvals.Keys;
      holder := None;
      while todo != {}
        invariant todo <= approvals.Keys
        invariant forall id :: id in approvals && id !in todo ==> !HoldsKey(approvals, key, id)
        decreases todo
      {
        var id :| id in todo;
        if approvals[id].idempotencyKey == Some(key) {
          assert HoldsKey(approvals, key, id);
          return Some(id);
        }
        todo := todo - {id};
      }
    }

    method Request(token: string, binding: Binding, key: Option<Digest>, needsJustification: bool, now: int)
      returns (r: Result<Outcome, ServiceError>)
      requires Valid()
      modifies this, file
      ensures Valid()
      ensures !old(Readable()) ==> r == Failure(UnsupportedFormat) && (file != null ==> unchanged(file))
      ensures old(Readable()) ==> (Readable() && r.Success?
        && (Contents(), r.value) == Apply(old(Contents()), Command.Request(token, binding, key, needsJustification, now, ttl)))
    {
      ApplyKeepsInv(Contents(), Command.Request(token, binding, key, needsJustification, now, ttl));
      var ok := LoadUnlocked();
      if !ok { return Failure(UnsupportedFormat); }
      if key.Some? {
        var holder := FirstWithKey(key.value);
        if holder.Some? {
          var existing := approvals[holder.value];
          if existing.binding != binding || existing.requiresJustification != needsJustification {
            return Success(KeyReused);
          }
          SaveUnlocked();
          return Success(Existing(existing));
        }
      }
      var approval := Approval(token, binding, needsJustification, now, now + ttl, key, None, Pending, 0, 1, 0, None);
      approvals := approvals[token := approval];
      SaveUnlocked();
      r := Success(Created(approval));
    }

    method Grant(id: string, justification: Option<string>, now: int) returns (r: Result<Outcome, ServiceError>)
      requires Valid()
      modifies this, file
      ensures Valid()
      ensures !old(Readable()) ==> r == Failure(UnsupportedFormat) && (file != null ==> unchanged(file))
      ensures old(Readable()) ==> (Readable() && r.Success?
        && (Contents(), r.value) == Apply(old(Contents()), Command.Grant(id, justification, now)))
    {
      ghost var due := Apply(Contents(), Command.Grant(id, justification, now));
      ApplyKeepsInv(Contents(), Command.Grant(id, justification, now));
      var ok := LoadUnlocked();
      if !ok { return Failure(UnsupportedFormat); }
      r := Success(GrantRefused);
      if id in approvals && approvals[id].status == Pending {
        if approvals[id].requiresJustification && !Given(justification) {
        } else if now >= approvals[id].expiresAt {
          approvals := approvals[id := approvals[id].(status := Expired)];
        } else {
          approvals := approvals[id := approvals[id].(status := Approved)];
          approvals := approvals[id := approvals[id].(justificationHash := JustificationHash(justification))];
          r := Success(Granted(approvals[id]));
        }
      }
      assert approvals == due.0;
      SaveUnlocked();
    }

    method Reject(id: string, justification: Option<string>) returns (r: Result<Outcome, ServiceError>)
      requires Valid()
      modifies this, file
      ensures Valid()
      ensures !old(Readable()) ==> r == Failure(UnsupportedFormat) && (file != null ==> unchanged(file))
      ensures old(Readable()) ==> (Readable() && r.Success?
        && (Contents(), r.value) == Apply(old(Contents()), Command.Reject(id, justification)))
    {
      ghost var due := Apply(Contents(), Command.Reject(id, justification));
      ApplyKeepsInv(Contents(), Command.Reject(id, justification));
      var ok := LoadUnlocked();
      if !ok { return Failure(UnsupportedFormat); }
      r := Success(RejectionRefused);
      if id in approvals && approvals[id].status in {Pending, Approved} {
        approvals := approvals[id := approvals[id].(status := Rejected)];
        approvals := approvals[id := approvals[id].(justificationHash := JustificationHash(justification))];
        r := Success(RejectionRecorded(approvals[id]));
      }
      assert approvals == due.0;
      SaveUnlocked();
    }

    method Consume(id: string, supplied: Binding, now: int) returns (r: Result<Outcome, ServiceError>)
      requires Valid()
      modifies this, file
      ensures Valid()
      ensures !old(Readable()) ==> r == Failure(UnsupportedFormat) && (file != null ==> unchanged(file))
      ensures old(Readable()) ==> (Readable() && r.Success?
        && (Contents(), r.value) == Apply(old(Contents()), Command.Consume(id, supplied, now)))
    {
      ghost var due := Apply(Contents(), Command.Consume(id, supplied, now));
      ApplyKeepsInv(Contents(), Command.Consume(id, supplied, now));
      var ok := LoadUnlocked();
      if !ok { return Failure(UnsupportedFormat); }
      if id !in approvals {
        SaveUnlocked();
        return Success(Consumption(UnknownApproval, None));
      }
      var approval := approvals[id].(attemptCount := approvals[id].attemptCount + 1);
      var reason := ConsumeReason(approval, supplied, now);
      if reason == ExpiredApproval {
        approval := approval.(status := Expired);
      } else if reason == Ok {
        approval := approval.(useCount := approval.useCount + 1);
        approval := approval.(status := Consumed);
        approval := approval.(consumedAt := Some(now));
      }
      assert approval == Attempted(approvals[id], supplied, now);
      approvals := approvals[id := approval];
      assert approvals == due.0;
      SaveUnlocked();
      r := Success(Consumption(reason, Some(approval)));
    }

    /** The sweep over the loaded records. */
    method ExpireOverdue(now: int) returns (expired: set<string>)
      modifies `approvals
      ensures (approvals, Swept(expired)) == Apply(old(approvals), Sweep(now))
    {
      ghost var was := approvals;
      var todo := approvals.Keys;
      expired := {};
      while todo != {}
        invariant approvals.Keys == was.Keys && todo <= was.Keys
        invariant forall id :: id in was ==>
          approvals[id] == if id !in todo && Overdue(was[id], now) then was[id].(status := Expired) else was[id]
        invariant expired == set id | id in was && id !in todo && Overdue(was[id], now)
        decreases todo
      {
        var id :| id in todo;
        if approvals[id].status in {Pending, Approved} && now >= approvals[id].expiresAt {
          approvals := approvals[id := approvals[id].(status := Expired)];
          expired := expired + {id};
        }
        todo := todo - {id};
      }
      assert approvals == Apply(was, Sweep(now)).0;
      assert expired == Apply(was, Sweep(now)).1.expired;
    }

    method SweepExpired(now: int) returns (r: Result<Outcome, ServiceError>)
      requires Valid()
      modifies this, file
      ensures Valid()
      ensures !old(Readable()) ==> r == Failure(UnsupportedFormat) && (file != null ==> unchanged(file))
      ensures old(Readable()) ==> (Readable() && r.Success?
        && (Contents(), r.value) == Apply(old(Contents()), Sweep(now)))
    {
      ApplyKeepsInv(Contents(), Sweep(now));
      var ok := LoadUnlocked();
      if !ok { return Failure(UnsupportedFormat); }
      var expired := ExpireOverdue(now);
      SaveUnlocked();
      r := Success(Swept(expired));
    }

    /** `find_approved`: read only; it fails exactly when two records match. */
    method FindApproved(q: Query, clock: string -> int) returns (r: Result<Option<Approval>, ServiceError>)
      requires Valid()
      modifies `approvals
      ensures Readable() == old(Readable()) && (Readable() ==> Contents() == old(Contents()))
      ensures r == Failure(UnsupportedFormat) <==> !Readable()
      ensures Readable() ==> (
        var m := Matches(Contents(), q, clock);
        && (r == Failure(MultipleLiveApprovals) <==> exists i, j :: i in m && j in m && i != j)
        && (r == Success(None) <==> m == {})
        && (forall a :: r == Success(Some(a)) ==> exists id :: m == {id} && a == Contents()[id]))
    {
      var ok := LoadUnlocked();
      if !ok { return Failure(UnsupportedFormat); }
      var matches := set id | id in approvals && Live(approvals[id], q, clock);
      if matches == {} { return Success(None); }
      var first :| first in matches;
      if matches != {first} {
        assert matches == matches - {first} + {first};
        ghost var other :| other in matches - {first};
        assert first in Matches(Contents(), q, clock) && other in Matches(Contents(), q, clock);
        return Failure(MultipleLiveApprovals);
      }
      r := Success(Some(approvals[first]));
    }
  }
}
