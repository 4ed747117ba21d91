/**
 * The post table (src/database/db.py): `Post` rows keyed by their unique
 * `post_id`. A session with its commit or rollback is one atomic update of
 * the `posts` map; the exception that a violated unique constraint raises,
 * and the rollback after it, are "return false, table unchanged".
 */
module PostStore {
  import opened Wrappers
  import opened Clock
  import Text

  /** One row of the `posts` table (the integer surrogate key `id` is not modelled). */
  datatype Post = Post(
    postId: string,
    content: string,
    scheduledTime: DateTime,
    createdAt: DateTime,
    posted: bool,
    postedAt: Option<DateTime>,
    tags: Option<string>)

  /**
   * The `tags` column written for a tag list: the tags joined with commas,
   * or NULL when the list is missing or empty (both are false in Python).
   */
  function StoredTags(tags: Option<seq<string>>): (r: Option<string>)
    ensures r.None? <==> (tags.None? || tags.value == [])
  {
    if Truthy(tags) then Some(Text.Join(',', tags.value)) else None
  }

  /** The row `add_post` inserts: a new row is not posted and has no `posted_at`. */
  function NewPost(postId: string, content: string, scheduledTime: DateTime,
                   tags: Option<seq<string>>, createdAt: DateTime): (p: Post)
    ensures p.postId == postId && p.content == content && p.scheduledTime == scheduledTime
    ensures !p.posted && p.postedAt == None && p.createdAt == createdAt
    ensures p.tags == StoredTags(tags)
  {
    Post(postId, content, scheduledTime, createdAt, false, None, StoredTags(tags))
  }

  /** The rows with `posted == False`. */
  function PendingIn(table: map<string, Post>): (r: set<Post>)
    ensures forall p :: p in r <==> p in table.Values && !p.posted
  {
    set id | id in table && !table[id].posted :: table[id]
  }

  /** The table, as the database file holds it. */
  class Database {
    var posts: map<string, Post>

    /** Every row is stored under its own `post_id`, which is therefore unique. */
    ghost predicate Valid()
      reads this
    {
      forall id :: id in posts ==> posts[id].postId == id
    }

    /** Opens the database; `rows` is what the file already holds (empty for a new file). */
    constructor (rows: map<string, Post>)
      requires forall id :: id in rows ==> rows[id].postId == id
      ensures Valid() && posts == rows
    {
      posts := rows;
    }

    /**
     * `add_post`: inserts a new pending row, or, when the id is already
     * stored, violates the unique column, rolls back and returns false.
     */
    method AddPost(postId: string, content: string, scheduledTime: DateTime,
                   tags: Option<seq<string>>, utcNow: DateTime) returns (ok: bool)
      requires Valid()
      modifies this
      ensures Valid()
      ensures ok <==> postId !in old(posts)
      ensures ok ==> posts == old(posts)[postId := NewPost(postId, content, scheduledTime, tags, utcNow)]
      ensures !ok ==> posts == old(posts)
    {
      if postId in posts {
        ok := false;
      } else {
        posts := posts[postId := NewPost(postId, content, scheduledTime, tags, utcNow)];
        ok := true;
      }
    }

    /** `get_post`: the row whose `post_id` matches, or `None`. */
    method GetPost(postId: string) returns (r: Option<Post>)
      requires Valid()
      ensures r.Some? <==> postId in posts
      ensures r.Some? ==> r.value == posts[postId] && r.value.postId == postId
    {
      if postId in posts {
        r := Some(posts[postId]);
      } else {
        r := None;
      }
    }

    /** `get_pending_posts`: exactly the rows not yet posted, in no promised order. */
    method GetPendingPosts() returns (r: set<Post>)
      ensures forall p :: p in r <==> p in posts.Values && !p.posted
    {
      r := PendingIn(posts);
    }

    /**
     * `mark_post_as_posted`: sets `posted` and `posted_at` on the row when it
     * exists, whatever its current status, and leaves every other row alone.
     */
    method MarkPostAsPosted(postId: string, utcNow: DateTime) returns (ok: bool)
      requires Valid()
      modifies this
      ensures Valid()
      ensures ok <==> postId in old(posts)
      ensures ok ==> posts == old(posts)[postId := old(posts)[postId].(posted := true, postedAt := Some(utcNow))]
      ensures !ok ==> posts == old(posts)
      ensures forall p :: p in PendingIn(posts) ==> p.postId != postId
      ensures PendingIn(posts) <= old(PendingIn(posts))
    {
      if postId in posts {
        posts := posts[postId := posts[postId].(posted := true, postedAt := Some(utcNow))];
        ok := true;
      } else {
        ok := false;
      }
    }

    /** `delete_post`: removes the row when it exists, whatever its status. */
    method DeletePost(postId: string) returns (ok: bool)
      requires Valid()
      modifies this
      ensures Valid()
      ensures ok <==> postId in old(posts)
      ensures posts == old(posts) - {postId}
    {
      ok := postId in posts;
      if ok {
        posts := posts - {postId};
      }
    }
  }

}
