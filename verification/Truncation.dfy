/** Shortening the messages of an oversized transition. Text is counted in bytes. */
module Truncation {
  import opened Records

  const DOTS := "..."

  /** The messages of a task were cut: what is left of the cut one is a prefix of it. */
  predicate IsCut(was: string, now: string) {
    |was| > |now| - |DOTS| >= 0 && now == was[..|now| - |DOTS|] + DOTS
  }

  /** One task with its error cut to the limit and its description to what the error leaves. */
  function Shortened(task: TaskResp, limit: nat): (r: TaskResp)
    ensures r.xname == task.xname && r.status == task.status
    ensures |r.error| + |r.desc| <= limit + 2 * |DOTS|
    ensures |task.error| + |task.desc| <= limit ==> r == task
    ensures |task.error| + |task.desc| > limit ==> IsCut(task.error, r.error) || IsCut(task.desc, r.desc)
    ensures r.error == task.error || IsCut(task.error, r.error)
    ensures r.desc == task.desc || IsCut(task.desc, r.desc)
  {
    if |task.error| > limit then
      task.(error := task.error[..limit] + DOTS,
            desc := if |task.desc| > |DOTS| then DOTS else task.desc)
    else if |task.desc| > limit - |task.error| then
      task.(desc := task.desc[..limit - |task.error|] + DOTS)
    else
      task
  }

  function ShortenedAll(tasks: seq<TaskResp>, limit: nat): (r: seq<TaskResp>)
    ensures |r| == |tasks|
    ensures forall i :: 0 <= i < |r| ==> r[i].xname == tasks[i].xname && r[i].status == tasks[i].status
    ensures forall i :: 0 <= i < |r| ==> |r[i].error| + |r[i].desc| <= limit + 6
  {
    seq(|tasks|, i requires 0 <= i < |tasks| => Shortened(tasks[i], limit))
  }

  /** How many messages of a task are cut. */
  function Cuts(task: TaskResp, limit: nat): nat {
    if |task.error| > limit then 1 + (if |task.desc| > |DOTS| then 1 else 0)
    else if |task.desc| > limit - |task.error| then 1
    else 0
  }

  function CutsOf(tasks: seq<TaskResp>, limit: nat): nat {
    if tasks == [] then 0 else CutsOf(tasks[..|tasks| - 1], limit) + Cuts(tasks[|tasks| - 1], limit)
  }

  /** Cuts the messages of one task in place. */
  method TruncateTask(tasks: array<TaskResp>, i: nat, limit: nat) returns (cut: nat)
    requires i < tasks.Length
    modifies tasks
    ensures tasks[i] == Shortened(old(tasks[i]), limit)
    ensures forall k :: 0 <= k < tasks.Length && k != i ==> tasks[k] == old(tasks[k])
    ensures cut == Cuts(old(tasks[i]), limit)
  {
    cut := 0;
    var task := tasks[i];
    if |task.error| > limit {
      task := task.(error := task.error[..limit] + DOTS);
      tasks[i] := task;
      cut := cut + 1;
      if |task.desc| > 3 {
        task := task.(desc := DOTS);
        tasks[i] := task;
        cut := cut + 1;
      }
    } else {
      var remaining := limit - |task.error|;
      if |task.desc| > remaining {
        task := task.(desc := task.desc[..remaining] + DOTS);
        tasks[i] := task;
        cut := cut + 1;
      }
    }
  }

  /** Cuts the messages in place when the transition is over the size limit. */
  method TruncateTaskMessages(tasks: array<TaskResp>, limit: nat, size: int, maxSize: int) returns (cut: nat)
    modifies tasks
    ensures tasks[..] == if size > maxSize then ShortenedAll(old(tasks[..]), limit) else old(tasks[..])
    ensures cut == if size > maxSize then CutsOf(old(tasks[..]), limit) else 0
  {
    hide Shortened, Cuts;
    cut := 0;
    if size > maxSize {
      ghost var was := tasks[..];
      for i := 0 to tasks.Length
        invariant forall k :: 0 <= k < i ==> tasks[k] == Shortened(was[k], limit)
        invariant forall k :: i <= k < tasks.Length ==> tasks[k] == was[k]
        invariant cut == CutsOf(was[..i], limit)
      {
        assert was[..i + 1][..i] == was[..i];
        var more := TruncateTask(tasks, i, limit);
        cut := cut + more;
      }
      assert was[..tasks.Length] == was;
    }
  }

  lemma ShortenedTwice(task: TaskResp, limit: nat)
    ensures Shortened(Shortened(task, limit), limit) == Shortened(task, limit)
  {
    var once := Shortened(task, limit);
    if |task.error| > limit {
      assert once.error[..limit] == task.error[..limit];
    } else if |task.desc| > limit - |task.error| {
      assert once.desc[..limit - |task.error|] == task.desc[..limit - |task.error|];
    }
  }

  predicate EndsInDots(s: string, at: nat) {
    |s| == at + |DOTS| && s[at..] == DOTS
  }

  /** Messages truncation leaves alone: they fit, or they are cut already. */
  predicate Untouched(task: TaskResp, limit: nat) {
    if |task.error| > limit then EndsInDots(task.error, limit) && |task.desc| <= |DOTS|
    else |task.error| + |task.desc| <= limit || EndsInDots(task.desc, limit - |task.error|)
  }

  lemma UntouchedExactly(task: TaskResp, limit: nat)
    ensures Shortened(task, limit) == task <==> Untouched(task, limit)
  {
    if |task.error| > limit {
      assert task.error == task.error[..limit] + task.error[limit..];
    } else if |task.desc| > limit - |task.error| {
      var rest := limit - |task.error|;
      assert task.desc == task.desc[..rest] + task.desc[rest..];
    }
  }

  /** A list of reports is unchanged exactly when each of its messages fits or is cut already. */
  lemma ListUntouchedExactly(tasks: seq<TaskResp>, limit: nat)
    ensures ShortenedAll(tasks, limit) == tasks <==> forall i :: 0 <= i < |tasks| ==> Untouched(tasks[i], limit)
  {
    hide Shortened, Untouched;
    forall i | 0 <= i < |tasks| ensures Shortened(tasks[i], limit) == tasks[i] <==> Untouched(tasks[i], limit) {
      UntouchedExactly(tasks[i], limit);
    }
    if ShortenedAll(tasks, limit) == tasks {
      forall i | 0 <= i < |tasks| ensures Untouched(tasks[i], limit) {
        assert ShortenedAll(tasks, limit)[i] == Shortened(tasks[i], limit);
      }
    }
  }

  /** Truncating a truncated list changes nothing. */
  lemma ShorteningIsIdempotent(tasks: seq<TaskResp>, limit: nat)
    ensures ShortenedAll(ShortenedAll(tasks, limit), limit) == ShortenedAll(tasks, limit)
  {
    forall i | 0 <= i < |tasks|
      ensures ShortenedAll(ShortenedAll(tasks, limit), limit)[i] == ShortenedAll(tasks, limit)[i]
    {
      ShortenedTwice(tasks[i], limit);
    }
  }
}
