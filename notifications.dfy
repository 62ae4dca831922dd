/** The notification hook (hooks/useNotifications.ts): the permission it holds, the daily
    check-in sent at nine o'clock once per day, and the reminder for a task due within
    fifteen minutes, sent once per task id. The minute timer is an explicit `Tick` that
    receives the clock's reading; the notifications sent are kept in an outbox. */
module Notifications {
  import opened Wrappers
  import opened Types

  /** The browser's notification permission. */
  datatype Permission = Default | Granted | Denied

  /** A notification the hook sends: the daily check-in, or the reminder for a task. */
  datatype Notice = CheckIn | Upcoming(taskId: string, title: string)

  /** The widest gap before the due instant at which a reminder is sent: 15 minutes. */
  const ReminderWindowMs: int := 15 * 60 * 1000

  /** The hour of the day at which the check-in is sent. */
  const CheckInHour: int := 9

  /** A task is due for a reminder at `now` when it is open, has a due date, and is due
      after `now` but no more than fifteen minutes after. */
  predicate DueSoon(t: Task, now: int)
  {
    !t.completed && t.dueDate.Some? && 0 < t.dueDate.value - now <= ReminderWindowMs
  }

  /** `currentHour === 9 && lastCheckIn !== todayStr`. */
  predicate CheckInDue(hour: int, lastCheckIn: Option<string>, today: string)
  {
    hour == CheckInHour && lastCheckIn != Some(today)
  }

  /** The reminder pass over all tasks: the notified ids after it and the reminders sent,
      in task order. */
  datatype Reminders = Reminders(notified: set<string>, sent: seq<Notice>)

  function RemindStep(acc: Reminders, t: Task, now: int): Reminders
  {
    if DueSoon(t, now) && t.id !in acc.notified then
      Reminders(acc.notified + {t.id}, acc.sent + [Upcoming(t.id, t.title)])
    else acc
  }

  function Remind(tasks: seq<Task>, now: int, notified: set<string>): Reminders
  {
    if tasks == [] then Reminders(notified, [])
    else RemindStep(Remind(tasks[..|tasks| - 1], now, notified), tasks[|tasks| - 1], now)
  }

  /** Every reminder in `sent` is for a task of `tasks` due soon whose id is not in `notified`. */
  predicate SentForDueTasks(sent: seq<Notice>, tasks: seq<Task>, now: int, notified: set<string>)
  {
    forall k :: 0 <= k < |sent| ==>
      sent[k].Upcoming? && sent[k].taskId !in notified &&
      exists i :: 0 <= i < |tasks| && tasks[i].id == sent[k].taskId && DueSoon(tasks[i], now)
  }

  /** No two reminders in `sent` are for the same id. */
  predicate DistinctReminders(sent: seq<Notice>)
  {
    forall k, l :: 0 <= k < l < |sent| ==> sent[k].Upcoming? && sent[l].Upcoming? && sent[k].taskId != sent[l].taskId
  }

  /** Reminders go only to open tasks with a due date inside the window whose id was not
      notified before; each id is reminded at most once; the ids reminded are exactly the
      ids added to the notified set; and every task due soon has its id notified after the
      pass. */
  lemma RemindSpec(tasks: seq<Task>, now: int, notified: set<string>)
    ensures var r := Remind(tasks, now, notified);
            && SentForDueTasks(r.sent, tasks, now, notified)
            && DistinctReminders(r.sent)
            && (forall id :: id in r.notified <==> id in notified || exists k :: 0 <= k < |r.sent| && r.sent[k].taskId == id)
            && (forall i :: 0 <= i < |tasks| && DueSoon(tasks[i], now) ==> tasks[i].id in r.notified)
  {
    RemindNotified(tasks, now, notified);
    RemindSent(tasks, now, notified);
    RemindCovers(tasks, now, notified);
  }

  /** The notified ids after the pass are the ones before it plus the ids reminded. */
  lemma {:induction false} RemindNotified(tasks: seq<Task>, now: int, notified: set<string>)
    ensures var r := Remind(tasks, now, notified);
            forall id :: id in r.notified <==>
                           id in notified || exists k :: 0 <= k < |r.sent| && r.sent[k].Upcoming? && r.sent[k].taskId == id
  {
    if tasks != [] {
      var init := tasks[..|tasks| - 1];
      RemindNotified(init, now, notified);
      var acc := Remind(init, now, notified);
      var r := Remind(tasks, now, notified);
      if r != acc {
        assert r.sent == acc.sent + [r.sent[|acc.sent|]];
        assert forall k :: 0 <= k < |acc.sent| ==> r.sent[k] == acc.sent[k];
      }
    }
  }

  /** Each reminder is for a task due soon whose id was not notified before, and no id is
      reminded twice. */
  lemma {:induction false} RemindSent(tasks: seq<Task>, now: int, notified: set<string>)
    ensures SentForDueTasks(Remind(tasks, now, notified).sent, tasks, now, notified)
    ensures DistinctReminders(Remind(tasks, now, notified).sent)
  {
    if tasks != [] {
      var init := tasks[..|tasks| - 1];
      var t := tasks[|tasks| - 1];
      RemindSent(init, now, notified);
      RemindNotified(init, now, notified);
      var acc := Remind(init, now, notified);
      var r := Remind(tasks, now, notified);
      assert forall i :: 0 <= i < |init| ==> init[i] == tasks[i];
      if r != acc {
        assert DueSoon(t, now) && t.id !in acc.notified;
        assert r.sent == acc.sent + [Upcoming(t.id, t.title)];
        forall k | 0 <= k < |r.sent|
          ensures r.sent[k].Upcoming? && r.sent[k].taskId !in notified
          ensures exists i :: 0 <= i < |tasks| && tasks[i].id == r.sent[k].taskId && DueSoon(tasks[i], now)
        {
          if k == |acc.sent| {
            assert tasks[|tasks| - 1] == t;
          } else {
            assert r.sent[k] == acc.sent[k];
          }
        }
        forall k, l | 0 <= k < l < |r.sent| ensures r.sent[k].taskId != r.sent[l].taskId {
          if l == |acc.sent| {
            assert r.sent[k] == acc.sent[k];
          }
        }
      }
    }
  }

  /** After the pass every task due soon has its id notified. */
  lemma {:induction false} RemindCovers(tasks: seq<Task>, now: int, notified: set<string>)
    ensures var r := Remind(tasks, now, notified);
            forall i :: 0 <= i < |tasks| && DueSoon(tasks[i], now) ==> tasks[i].id in r.notified
  {
    if tasks != [] {
      var init := tasks[..|tasks| - 1];
      RemindCovers(init, now, notified);
      assert forall i :: 0 <= i < |init| ==> init[i] == tasks[i];
    }
  }

  /** A task that was already notified is never reminded again. */
  lemma RemindOnce(tasks: seq<Task>, now: int, notified: set<string>, id: string)
    requires id in notified
    ensures forall k :: 0 <= k < |Remind(tasks, now, notified).sent| ==>
              Remind(tasks, now, notified).sent[k].Upcoming? && Remind(tasks, now, notified).sent[k].taskId != id
  {
    RemindSpec(tasks, now, notified);
  }

  /** A completed task, or one without a due date, never gets a reminder. */
  lemma RemindSkips(tasks: seq<Task>, now: int, notified: set<string>, t: Task)
    requires t.completed || t.dueDate.None?
    requires forall i :: 0 <= i < |tasks| && tasks[i].id == t.id ==> tasks[i] == t
    ensures forall k :: 0 <= k < |Remind(tasks, now, notified).sent| ==>
              Remind(tasks, now, notified).sent[k].Upcoming? && Remind(tasks, now, notified).sent[k].taskId != t.id
  {
    RemindSpec(tasks, now, notified);
  }

  /** The hook's state. */
  class Notifier {
    var permission: Permission
    /** The day string stored under `lastCheckInNotification`. */
    var lastCheckIn: Option<string>
    /** `notifiedTasksRef`. */
    var notified: set<string>
    var outbox: seq<Notice>

    /** The first render reads the browser's permission when the API exists. */
    constructor (supported: bool, browserPermission: Permission, stored: Option<string>)
      ensures permission == (if supported then browserPermission else Default)
      ensures lastCheckIn == stored && notified == {} && outbox == []
    {
      permission := if supported then browserPermission else Default;
      lastCheckIn := stored;
      notified := {};
      outbox := [];
    }

    /** `requestPermission`: false without the API; otherwise the answer is stored and the
        result is whether it granted. */
    method RequestPermission(supported: bool, answer: Permission) returns (granted: bool)
      modifies this`permission
      ensures granted <==> supported && answer == Granted
      ensures permission == (if supported then answer else old(permission))
    {
      if !supported {
        return false;
      }
      permission := answer;
      granted := answer == Granted;
    }

    /** One run of `checkRoutine` at instant `now`, local hour `hour` and day string `today`.
        Nothing happens unless permission is granted. */
    method Tick(tasks: seq<Task>, now: int, hour: int, today: string)
      modifies this`lastCheckIn, this`notified, this`outbox
      ensures permission != Granted ==>
                lastCheckIn == old(lastCheckIn) && notified == old(notified) && outbox == old(outbox)
      ensures permission == Granted ==>
                var checkIn := CheckInDue(hour, old(lastCheckIn), today);
                var r := Remind(tasks, now, old(notified));
                && lastCheckIn == (if checkIn then Some(today) else old(lastCheckIn))
                && notified == r.notified
                && outbox == old(outbox) + (if checkIn then [CheckIn] else []) + r.sent
    {
      if permission != Granted {
        return;
      }
      if hour == CheckInHour && lastCheckIn != Some(today) {
        outbox := outbox + [CheckIn];
        lastCheckIn := Some(today);
      }
      ghost var start, day := outbox, lastCheckIn;
      for i := 0 to |tasks|
        invariant lastCheckIn == day
        invariant notified == Remind(tasks[..i], now, old(notified)).notified
        invariant outbox == start + Remind(tasks[..i], now, old(notified)).sent
      {
        assert tasks[..i + 1][..i] == tasks[..i];
        var t := tasks[i];
        if t.completed || t.dueDate.None? {
          continue;
        }
        var untilDue := t.dueDate.value - now;
        if 0 < untilDue <= ReminderWindowMs && t.id !in notified {
          outbox := outbox + [Upcoming(t.id, t.title)];
          notified := notified + {t.id};
        }
      }
      assert tasks[..|tasks|] == tasks;
    }
  }

  /** The check-in fires at most once per day: once sent, the stored day is today, so another
      tick on the same day does not send it again. */
  lemma CheckInOncePerDay(hour: int, lastCheckIn: Option<string>, today: string, laterHour: int)
    requires CheckInDue(hour, lastCheckIn, today)
    ensures !CheckInDue(laterHour, Some(today), today)
    ensures hour == CheckInHour
  {
  }
}
