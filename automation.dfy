/**
 * The orchestration of main.py: `LinkedInAutomation` owns one publisher,
 * one scheduler and one post table; it creates, stores and schedules a
 * post, and at fire time looks the post up, publishes it and marks it.
 */
module Automation {
  import opened Wrappers
  import opened Clock
  import Text
  import Config
  import opened PostStore
  import opened Scheduling
  import opened LinkedIn

  /** `f"post_{now.strftime('%Y%m%d%H%M%S')}"`. */
  function PostId(now: DateTime): (id: string)
    ensures |id| == 19 && id[..5] == "post_"
    ensures forall i :: 5 <= i < 19 ==> Text.IsDigit(id[i])
  {
    "post_" + CompactStamp(now)
  }

  /** Two posts get the same id exactly when they are created in the same second. */
  lemma PostIdCollision(a: DateTime, b: DateTime)
    ensures PostId(a) == PostId(b) <==> SameSecond(a, b)
  {
    CompactStampInjective(a, b);
    if PostId(a) == PostId(b) {
      assert CompactStamp(a) == PostId(a)[5..] && CompactStamp(b) == PostId(b)[5..];
    }
  }

  /**
   * The `scheduled_time` stored for the post: the clock reading when no
   * time is given, otherwise what `strptime(scheduled_time, "%H:%M")`
   * builds, which carries the hour and minute on the date 1900-01-01;
   * `None` where that `strptime` raises.
   */
  function StoredScheduledTime(scheduledTime: Option<string>, now: DateTime): (r: Option<DateTime>)
    ensures !Truthy(scheduledTime) ==> r == Some(now)
    ensures Truthy(scheduledTime) ==> (r.Some? <==> ParseHourMinute(scheduledTime.value).Some?)
    ensures Truthy(scheduledTime) && r.Some? ==>
              var t := ParseHourMinute(scheduledTime.value).value;
              r.value.hour == t.hour && r.value.minute == t.minute && r.value.second == 0
              && r.value.microsecond == 0
              && r.value.year == 1900 && r.value.month == 1 && r.value.day == 1
  {
    if !Truthy(scheduledTime) then Some(now)
    else match ParseHourMinute(scheduledTime.value)
      case None => None
      case Some(t) => Some(OnDefaultDate(t))
  }

  /** The time handed to the scheduler: `scheduled_time or now.strftime("%H:%M")`. */
  function ScheduleArgument(scheduledTime: Option<string>, now: DateTime): (r: string)
    ensures Truthy(scheduledTime) ==> r == scheduledTime.value
    ensures !Truthy(scheduledTime) ==> r == HourMinute(now) && ValidPostTime(r)
  {
    RenderedTimeIsValid(now);
    if Truthy(scheduledTime) then scheduledTime.value else HourMinute(now)
  }

  /** The tags the fire step hands to the publisher: `post.tags.split(",") if post.tags else None`. */
  function ParseTags(stored: Option<string>): (r: Option<seq<string>>)
    ensures r.None? <==> !Truthy(stored)
    ensures r.Some? ==> r.value != [] && forall i :: 0 <= i < |r.value| ==> ',' !in r.value[i]
  {
    if Truthy(stored) then Some(Text.Split(stored.value, ',')) else None
  }

  /**
   * Storing a tag list and reading it back at fire time returns that list
   * exactly when it is non-empty, is not `[""]` and no tag holds a comma.
   */
  lemma TagsRoundTrip(tags: seq<string>)
    ensures ParseTags(StoredTags(Some(tags))) == Some(tags) <==>
              (tags != [] && tags != [""] && forall i :: 0 <= i < |tags| ==> ',' !in tags[i])
  {
    if tags != [] {
      Text.JoinEmpty(',', tags);
      if tags != [""] && forall i :: 0 <= i < |tags| ==> ',' !in tags[i] {
        Text.SplitJoin(',', tags);
      }
    }
  }

  /** A missing or empty tag list is stored as NULL and read back as no tags. */
  lemma NoTagsRoundTrip(tags: Option<seq<string>>)
    requires !Truthy(tags)
    ensures ParseTags(StoredTags(tags)) == None
  {
  }

  /** After a round trip the publisher formats the post as it would have with the original tags. */
  lemma PublishedTextKeepsTags(content: string, tags: Option<seq<string>>)
    requires tags.Some? ==> tags.value != [""] && forall i :: 0 <= i < |tags.value| ==> ',' !in tags.value[i]
    ensures FormatPost(content, ParseTags(StoredTags(tags))) == FormatPost(content, tags)
  {
    if Truthy(tags) {
      TagsRoundTrip(tags.value);
    }
  }

  /** The outcome of `create_and_schedule_post`: the new id, or the `ValueError` its `strptime` raises. */
  datatype CreateResult = Created(postId: string) | InvalidTimeFormat

  class LinkedInAutomation {
    const linkedinApi: LinkedInAPI
    const scheduler: PostScheduler
    const database: Database

    ghost predicate Valid()
      reads this, linkedinApi, scheduler, scheduler.registry, database
    {
      linkedinApi.Valid() && scheduler.Valid() && database.Valid()
    }

    /**
     * `LinkedInAutomation()`: a fresh publisher and scheduler, the library's
     * global job list `registry`, and the rows the database file holds.
     */
    constructor (registry: JobRegistry, rows: map<string, Post>)
      requires Untagged(registry.jobs)
      requires forall id :: id in rows ==> rows[id].postId == id
      ensures Valid()
      ensures fresh(linkedinApi) && fresh(scheduler) && fresh(database)
      ensures scheduler.registry == registry && registry.jobs == old(registry.jobs)
      ensures !linkedinApi.authenticated && linkedinApi.client == None && scheduler.scheduledPosts == map[] && !scheduler.running
      ensures database.posts == rows
    {
      linkedinApi := new LinkedInAPI();
      scheduler := new PostScheduler(registry);
      database := new Database(rows);
    }

    /** `authenticate_linkedin`: the publisher's `authenticate`. */
    method AuthenticateLinkedIn(email: string, password: string, loginAccepted: bool) returns (ok: bool)
      requires Valid()
      modifies linkedinApi
      ensures Valid()
      ensures ok == loginAccepted && linkedinApi.authenticated == ok
      ensures linkedinApi.client == if ok then Some(Client(email)) else old(linkedinApi.client)
    {
      ok := linkedinApi.Authenticate(email, password, loginAccepted);
    }

    /**
     * `create_and_schedule_post`, with `now` the local clock reading and
     * `utcNow` the UTC one the table stamps `created_at` with. The post is
     * stored first and then scheduled under its id, and the answers of both
     * are ignored: an id already stored is scheduled again, and a time that
     * `strptime` reads but the scheduler refuses leaves the post stored and
     * unscheduled. Only a time `strptime` refuses stops it, before any change.
     */
    method CreateAndSchedulePost(content: string, scheduledTime: Option<string>, tags: Option<seq<string>>,
                                 now: DateTime, utcNow: DateTime) returns (r: CreateResult)
      requires Valid()
      modifies database, scheduler, scheduler.registry
      ensures Valid()
      ensures scheduler.running == old(scheduler.running)
      ensures r == InvalidTimeFormat <==> StoredScheduledTime(scheduledTime, now).None?
      ensures r == InvalidTimeFormat ==>
                && database.posts == old(database.posts)
                && scheduler.scheduledPosts == old(scheduler.scheduledPosts)
                && scheduler.registry.jobs == old(scheduler.registry.jobs)
      ensures r.Created? ==>
                var id, at := PostId(now), ScheduleArgument(scheduledTime, now);
                && r.postId == id
                && id in database.posts
                && database.posts == (if id in old(database.posts) then old(database.posts)
                                      else old(database.posts)[id := NewPost(id, content,
                                             StoredScheduledTime(scheduledTime, now).value, tags, utcNow)])
                && scheduler.scheduledPosts == (if ValidPostTime(at) then old(scheduler.scheduledPosts)[id := at]
                                                else old(scheduler.scheduledPosts))
                && scheduler.registry.jobs == old(scheduler.registry.jobs) + (if ValidPostTime(at) then [Job(at, id, {})] else [])
      ensures !Truthy(scheduledTime) ==> r.Created? && scheduler.scheduledPosts == old(scheduler.scheduledPosts)[PostId(now) := HourMinute(now)]
    {
      var postId := PostId(now);
      var stored := StoredScheduledTime(scheduledTime, now);
      if stored.None? {
        return InvalidTimeFormat;
      }
      var _ := database.AddPost(postId, content, stored.value, tags, utcNow);
      var _ := scheduler.SchedulePost(postId, ScheduleArgument(scheduledTime, now), postId);
      r := Created(postId);
    }

    /**
     * `_post_to_linkedin`, the step a job's callback runs: looks the post up,
     * hands its content and split tags to the publisher and, only when that
     * returns normally, marks the post as posted. A missing post, a refusal of
     * the publisher and a failure of the network are all swallowed. Nothing
     * checks whether the post was already posted, so a daily job publishes
     * and marks it again each time it fires. `sent` is the text handed to the
     * network, if any.
     */
    method PostToLinkedIn<T>(postId: string, reply: Reply<T>, utcNow: DateTime) returns (sent: Option<string>)
      requires Valid()
      modifies database
      ensures Valid()
      ensures postId !in old(database.posts) ==> sent == None && database.posts == old(database.posts)
      ensures postId in old(database.posts) ==>
                var p := old(database.posts)[postId];
                var publishes := linkedinApi.authenticated && |p.content| <= Config.MaxPostLength;
                && sent == (if publishes then Some(FormatPost(p.content, ParseTags(p.tags))) else None)
                && database.posts == (if publishes && reply.Accepted?
                                      then old(database.posts)[postId := p.(posted := true, postedAt := Some(utcNow))]
                                      else old(database.posts))
    {
      var post := database.GetPost(postId);
      if post.None? {
        return None;
      }
      var p := post.value;
      var published;
      sent, published := linkedinApi.CreatePost(p.content, ParseTags(p.tags), reply);
      if published.Ok? {
        var _ := database.MarkPostAsPosted(postId, utcNow);
      }
    }
  }

}
