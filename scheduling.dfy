/**
 * The scheduler registry (src/scheduler/scheduler.py) and the job list of
 * the third-party `schedule` library it drives. That job list is a
 * module-level global in the library, so it is a separate object here that
 * every `PostScheduler` shares.
 */
module Scheduling {
  import opened Wrappers
  import opened Text
  import opened Clock
  import Config

  /**
   * A daily job of the `schedule` library: the time of day it runs at, the
   * post id its callback publishes, and its tags (what `schedule.clear(tag)`
   * matches on).
   */
  datatype Job = Job(at: string, callback: string, tags: set<string>)

  /**
   * The jobs that `schedule.clear(tag)` keeps: a job is kept exactly when it
   * does not carry `tag` (the order is kept too, see `WithoutTagAppend`).
   */
  function WithoutTag(jobs: seq<Job>, tag: string): (r: seq<Job>)
    ensures |r| <= |jobs|
    ensures forall j :: j in r <==> j in jobs && tag !in j.tags
  {
    if |jobs| == 0 then []
    else if tag in jobs[0].tags then WithoutTag(jobs[1..], tag)
    else [jobs[0]] + WithoutTag(jobs[1..], tag)
  }

  /**
   * Clearing by tag works job by job: the survivors of a list made of two
   * parts are the survivors of the first part followed by those of the second.
   */
  lemma {:induction false} WithoutTagAppend(a: seq<Job>, b: seq<Job>, tag: string)
    ensures WithoutTag(a + b, tag) == WithoutTag(a, tag) + WithoutTag(b, tag)
  {
    if |a| > 0 {
      WithoutTagAppend(a[1..], b, tag);
      assert (a + b)[1..] == a[1..] + b;
    } else {
      assert a + b == b;
    }
  }

  predicate Untagged(jobs: seq<Job>)
  {
    forall i :: 0 <= i < |jobs| ==> jobs[i].tags == {}
  }

  /** Clearing by tag removes nothing from a list of untagged jobs. */
  lemma {:induction false} WithoutTagOfUntagged(jobs: seq<Job>, tag: string)
    requires Untagged(jobs)
    ensures WithoutTag(jobs, tag) == jobs
  {
    if |jobs| > 0 {
      WithoutTagOfUntagged(jobs[1..], tag);
      assert [jobs[0]] + jobs[1..] == jobs;
    }
  }

  /**
   * The check `schedule`'s `at()` applies to the time of a daily job: it
   * must match `[0-2]\d:[0-5]\d(:[0-5]\d)?` and name an hour up to 23.
   */
  predicate DailyAtAccepts(s: string): (b: bool)
    ensures b ==> && |s| >= 5 && IsDigit(s[0]) && IsDigit(s[1]) && IsDigit(s[3]) && IsDigit(s[4])
                  && ParseHourMinute(s[..5]) == Some(TimeOfDay(Value2(s[..2]), Value2(s[3..5])))
  {
    && (|s| == 5 || (|s| == 8 && s[5] == ':' && '0' <= s[6] <= '5' && IsDigit(s[7])))
    && '0' <= s[0] <= '2' && IsDigit(s[1]) && s[2] == ':' && '0' <= s[3] <= '5' && IsDigit(s[4])
    && Value2(s[..2]) <= 23
  }

  /**
   * A time `schedule_post` accepts: `strptime(post_time, "%H:%M")` must
   * succeed, and then so must `every().day.at(post_time)`.
   */
  predicate ValidPostTime(s: string): (b: bool)
    ensures b ==> && |s| == 5 && IsDigit(s[0]) && IsDigit(s[1]) && IsDigit(s[3]) && IsDigit(s[4])
                  && ParseHourMinute(s) == Some(TimeOfDay(Value2(s[..2]), Value2(s[3..])))
  {
    ParseHourMinute(s).Some? && DailyAtAccepts(s)
  }

  /** Exactly two digits of hour 00-23, a colon and two digits of minute 00-59. */
  predicate IsTwoDigitHourMinute(s: string)
  {
    && |s| == 5 && s[2] == ':'
    && IsDigit(s[0]) && IsDigit(s[1]) && IsDigit(s[3]) && IsDigit(s[4])
    && Value2(s[..2]) <= 23 && Value2(s[3..]) <= 59
  }

  /** The two checks together accept exactly the two-digit `HH:MM` form. */
  lemma ValidPostTimeExactly(s: string)
    ensures ValidPostTime(s) <==> IsTwoDigitHourMinute(s)
  {
  }

  /** Every clock reading rendered as `%H:%M` is a time `schedule_post` accepts. */
  lemma RenderedTimeIsValid(t: DateTime)
    ensures ValidPostTime(HourMinute(t))
  {
  }

  /** `post_time or DEFAULT_POST_TIME`: a missing or empty time falls back to the default. */
  function TimeOrDefault(postTime: Option<string>): (r: string)
    ensures postTime.None? || postTime.value == "" ==> r == Config.DefaultPostTime
    ensures postTime.Some? && postTime.value != "" ==> r == postTime.value
  {
    if Truthy(postTime) then postTime.value else Config.DefaultPostTime
  }

  /** The default time `"09:00"` is one `schedule_post` accepts. */
  lemma DefaultPostTimeIsValid()
    ensures ValidPostTime(Config.DefaultPostTime)
  {
  }

  /** The `schedule` library's default scheduler: its list of jobs. */
  class JobRegistry {
    var jobs: seq<Job>

    constructor ()
      ensures jobs == []
    {
      jobs := [];
    }

    /**
     * `schedule.every().day.at(at).do(callback)`: `at()` raises before the
     * job is added when the time is not a daily time; `do()` appends the job,
     * with no tags.
     */
    method AddDaily(at: string, callback: string) returns (ok: bool)
      modifies this
      ensures ok <==> DailyAtAccepts(at)
      ensures jobs == if ok then old(jobs) + [Job(at, callback, {})] else old(jobs)
    {
      ok := DailyAtAccepts(at);
      if ok {
        jobs := jobs + [Job(at, callback, {})];
      }
    }

    /** `schedule.clear(tag)`: removes the jobs that carry `tag`. */
    method ClearTag(tag: string)
      modifies this
      ensures jobs == WithoutTag(old(jobs), tag)
    {
      jobs := WithoutTag(jobs, tag);
    }

    /** `schedule.clear()`: removes every job. */
    method Clear()
      modifies this
      ensures jobs == []
    {
      jobs := [];
    }
  }

  class PostScheduler {
    var scheduledPosts: map<string, string>
    var running: bool
    const registry: JobRegistry

    /** Only valid times are recorded, and no code path tags a job. */
    ghost predicate Valid()
      reads this, registry
    {
      && (forall id :: id in scheduledPosts ==> ValidPostTime(scheduledPosts[id]))
      && Untagged(registry.jobs)
    }

    /** `PostScheduler()`: nothing scheduled and not running; `registry` is the library's global job list. */
    constructor (registry: JobRegistry)
      requires Untagged(registry.jobs)
      ensures Valid()
      ensures scheduledPosts == map[] && !running && this.registry == registry
      ensures registry.jobs == old(registry.jobs)
    {
      scheduledPosts := map[];
      running := false;
      this.registry := registry;
    }

    /**
     * `schedule_post`: on a valid time, appends one daily job and records
     * `post_id -> post_time`, overwriting an earlier entry for the same id;
     * on an invalid one, returns false and changes nothing.
     */
    method SchedulePost(postId: string, postTime: string, callback: string) returns (ok: bool)
      requires Valid()
      modifies this, registry
      ensures Valid() && running == old(running)
      ensures ok <==> ValidPostTime(postTime)
      ensures ok ==> scheduledPosts == old(scheduledPosts)[postId := postTime]
      ensures ok ==> registry.jobs == old(registry.jobs) + [Job(postTime, callback, {})]
      ensures !ok ==> scheduledPosts == old(scheduledPosts) && registry.jobs == old(registry.jobs)
    {
      if ParseHourMinute(postTime).None? {
        return false;
      }
      ok := registry.AddDaily(postTime, callback);
      if ok {
        scheduledPosts := scheduledPosts[postId := postTime];
      }
    }

    /** `schedule_daily_post`: `schedule_post` with the given time, or the default when there is none. */
    method ScheduleDailyPost(postId: string, callback: string, postTime: Option<string>) returns (ok: bool)
      requires Valid()
      modifies this, registry
      ensures Valid() && running == old(running)
      ensures ok <==> ValidPostTime(TimeOrDefault(postTime))
      ensures postTime.None? ==> ok
      ensures ok ==> scheduledPosts == old(scheduledPosts)[postId := TimeOrDefault(postTime)]
      ensures ok ==> registry.jobs == old(registry.jobs) + [Job(TimeOrDefault(postTime), callback, {})]
      ensures !ok ==> scheduledPosts == old(scheduledPosts) && registry.jobs == old(registry.jobs)
    {
      DefaultPostTimeIsValid();
      ok := SchedulePost(postId, TimeOrDefault(postTime), callback);
    }

    /**
     * `cancel_post`: forgets the id when it is recorded. The jobs carry no
     * tags, so the `schedule.clear(post_id)` it calls leaves every job, the
     * cancelled post's included, in the list.
     */
    method CancelPost(postId: string) returns (ok: bool)
      requires Valid()
      modifies this, registry
      ensures Valid() && running == old(running)
      ensures ok <==> postId in old(scheduledPosts)
      ensures scheduledPosts == old(scheduledPosts) - {postId}
      ensures registry.jobs == old(registry.jobs)
    {
      if postId in scheduledPosts {
        WithoutTagOfUntagged(registry.jobs, postId);
        registry.ClearTag(postId);
        scheduledPosts := scheduledPosts - {postId};
        ok := true;
      } else {
        ok := false;
      }
    }

    /** `get_scheduled_posts`: a copy of the registry; a map value shares nothing with the field. */
    method GetScheduledPosts() returns (r: map<string, string>)
      requires Valid()
      ensures r == scheduledPosts
      ensures forall id :: id in r ==> ValidPostTime(r[id])
    {
      r := scheduledPosts;
    }

    /** `start`: sets the running flag (the polling loop that follows is not modelled). */
    method Start()
      requires Valid()
      modifies this
      ensures Valid() && running
      ensures scheduledPosts == old(scheduledPosts)
    {
      running := true;
    }

    /** `stop`: clears the running flag and every job of the library; the id map stays. */
    method Stop()
      requires Valid()
      modifies this, registry
      ensures Valid() && !running
      ensures registry.jobs == []
      ensures scheduledPosts == old(scheduledPosts)
    {
      running := false;
      registry.Clear();
    }
  }

}
