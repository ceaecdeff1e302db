/**
 The running service: the tables, and the calls that change them.
 */
module Service {
  import opened Patching
  import opened Ledger
  import opened Runs
  import opened Claims
  import opened Transactions

  class Service {
    var db: State
    const zones: Zones

    ghost predicate Valid()
      reads this
    {
      Inv(db)
    }

    constructor (zones: Zones)
      ensures Valid() && db == Empty() && this.zones == zones
    {
      this.zones := zones;
      db := Empty();
      new;
      EmptyInv();
    }

    /** One call: the tables become what the ledger says, or stay. */
    method Serve(c: Call) returns (r: Reply)
      requires Valid()
      modifies this`db
      ensures Valid()
      ensures db == After(zones, old(db), c) && r == ReplyTo(zones, old(db), c)
    {
      AfterInv(zones, db, c);
      var tx;
      match c {
      case Create(user, key, input) => tx, r := CreateSchedule(zones, db, user, key, input);
      case CreateSeries(user, key, input, os) =>
        tx, r := CreateRecurringSchedules(zones, db, user, key, input, os);
      case Update(user, key, id, patch, hash) =>
        tx, r := UpdateSchedule(zones, db, user, key, id, patch, hash);
      case Delete(user, key, id) => tx, r := DeleteSchedule(zones, db, user, key, id);
      case DeleteFollowing(user, key, id, expected, hash) =>
        tx, r := DeleteScheduleFollowing(zones, db, user, key, id, expected, hash);
      case BulkDelete(user, key, ids, hash) =>
        tx, r := BulkDeleteSchedules(zones, db, user, key, ids, hash);
      case AddReminder(user, key, id, reminder, hash) =>
        tx, r := AddReminderTo(zones, db, user, key, id, reminder, hash);
      case DeleteReminder(user, key, id, reminderId) =>
        tx, r := DeleteReminderFrom(zones, db, user, key, id, reminderId);
      }
      db := tx;
    }

    /** A PATCH as the handler serves it: a committed retry is answered before
        the update is tried.  The shortcut is not visible. */
    method ServePatch(user: nat, key: string, id: nat, patch: Patch, hash: nat) returns (r: Reply)
      requires Valid() && patch.scope != OtherScope
      modifies this`db
      ensures Valid()
      ensures var c := Update(user, key, id, patch, hash);
        db == After(zones, old(db), c) && r == ReplyTo(zones, old(db), c)
    {
      ReplayAgrees(zones, db, user, key, id, patch, hash);
      var replay := ReplayScheduleUpdate(db, user, id, key, hash);
      match replay
      case Err(error) => return Refused(error);
      case Ok(Some(reply)) => return reply;
      case Ok(None) => r := Serve(Update(user, key, id, patch, hash));
    }

    /** Account cleanup. */
    method Cleanup(user: nat)
      requires Valid()
      modifies this`db
      ensures Valid() && db == Erase(old(db), user)
    {
      EraseInv(db, user);
      var tx := CleanupDeletedAccount(db, user);
      db := tx;
    }
  }
}
