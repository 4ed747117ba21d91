/**
 * The publisher (src/linkedin/api.py): an authentication flag in front of
 * the LinkedIn client, the length guard and the hashtag formatting of a
 * post. The client's network calls are not modelled; what they would
 * answer is passed in as a `Reply`.
 */
module LinkedIn {
  import opened Wrappers
  import Text
  import Config

  /** The logged-in `linkedin_api` client, identified by the account it logged in with. */
  datatype Client = Client(email: string)

  /** What the network answers to one request: a response, or the exception it raised. */
  datatype Reply<T> = Accepted(response: T) | Refused(reason: string)

  /** The exceptions `LinkedInAPI` raises. */
  datatype ApiError =
    | NotAuthenticated          // "Not authenticated with LinkedIn"
    | ContentTooLong            // the ValueError of create_post
    | RequestFailed(reason: string)  // re-raised from the client

  datatype Result<T> = Ok(value: T) | Err(error: ApiError)

  /** The client's answer as the caller sees it: its response, or its exception re-raised. */
  function FromReply<T>(reply: Reply<T>): (r: Result<T>)
    ensures r.Ok? <==> reply.Accepted?
    ensures r.Ok? ==> r.value == reply.response
    ensures r.Err? ==> r.error == RequestFailed(reply.reason)
  {
    match reply
    case Accepted(v) => Ok(v)
    case Refused(why) => Err(RequestFailed(why))
  }

  /** `[f"#{tag}" for tag in tags]`. */
  function Hashtags(tags: seq<string>): (r: seq<string>)
    ensures |r| == |tags|
    ensures forall i :: 0 <= i < |tags| ==> r[i] == "#" + tags[i]
  {
    seq(|tags|, i requires 0 <= i < |tags| => "#" + tags[i])
  }

  /**
   * The text `create_post` hands to the client: the content alone when
   * there are no tags, otherwise the content, a blank line, and the hashtag
   * words separated by single spaces.
   */
  function FormatPost(content: string, tags: Option<seq<string>>): (r: string)
    ensures |r| >= |content| && r[..|content|] == content
    ensures !Truthy(tags) ==> r == content
    ensures Truthy(tags) ==> |r| > |content| + 2 && r[|content|..|content| + 2] == "\n\n"
  {
    if Truthy(tags) then content + "\n\n" + Text.Join(' ', Hashtags(tags.value)) else content
  }

  /**
   * The line after the blank line holds the hashtags themselves, one per
   * space-separated word and in the order given, when no tag contains a space.
   */
  lemma FormatPostTagWords(content: string, tags: seq<string>)
    requires tags != []
    requires forall i :: 0 <= i < |tags| ==> ' ' !in tags[i]
    ensures Text.Split(FormatPost(content, Some(tags))[|content| + 2..], ' ') == Hashtags(tags)
  {
    var r := FormatPost(content, Some(tags));
    var h := Hashtags(tags);
    assert r[|content| + 2..] == Text.Join(' ', h);
    forall i | 0 <= i < |h| ensures ' ' !in h[i] {
      assert h[i] == "#" + tags[i];
    }
    Text.SplitJoin(' ', h);
  }

  /** With one tag, the sent text is the content, a blank line and that tag after `#`, whatever the tag holds. */
  lemma OneTagPost(content: string, tag: string)
    ensures FormatPost(content, Some([tag])) == content + "\n\n#" + tag
  {
  }

  /**
   * Each further tag adds a space, `#` and the tag as written, spaces
   * included, after the text the earlier tags give.
   */
  lemma NextTagPost(content: string, tags: seq<string>, tag: string)
    requires tags != []
    ensures FormatPost(content, Some(tags + [tag])) == FormatPost(content, Some(tags)) + " #" + tag
  {
    var h, last := Hashtags(tags), "#" + tag;
    var j := Text.Join(' ', h);
    calc {
      FormatPost(content, Some(tags + [tag]));
      content + "\n\n" + Text.Join(' ', Hashtags(tags + [tag]));
      { HashtagsAppend(tags, tag); }
      content + "\n\n" + Text.Join(' ', h + [last]);
      { Text.JoinAppend(' ', h, [last]); }
      content + "\n\n" + (j + " " + last);
      { assert FormatPost(content, Some(tags)) == content + "\n\n" + j; }
      FormatPost(content, Some(tags)) + " #" + tag;
    }
  }

  lemma HashtagsAppend(tags: seq<string>, tag: string)
    ensures Hashtags(tags + [tag]) == Hashtags(tags) + ["#" + tag]
  {
    var h2 := Hashtags(tags + [tag]);
    forall i | 0 <= i < |h2| ensures h2[i] == (Hashtags(tags) + ["#" + tag])[i] {
      if i < |tags| {
        assert (tags + [tag])[i] == tags[i];
      }
    }
  }


  /**
   * The length guard looks at the content only: content exactly at the
   * limit passes it, and with one tag the text sent is longer than the limit.
   */
  lemma TagsMayExceedLimit(content: string)
    requires |content| == Config.MaxPostLength
    ensures |FormatPost(content, Some(["a"]))| == Config.MaxPostLength + 4
  {
  }

  class LinkedInAPI {
    var client: Option<Client>
    var authenticated: bool

    ghost predicate Valid()
      reads this
    {
      authenticated ==> client.Some?
    }

    /** `LinkedInAPI()`: no client and not authenticated. */
    constructor ()
      ensures Valid() && client == None && !authenticated
    {
      client := None;
      authenticated := false;
    }

    /**
     * `authenticate`: `loginAccepted` is whether `Linkedin(email, password)`
     * returns. On success the new client replaces the old one; on failure the
     * old client stays but the flag is cleared.
     */
    method Authenticate(email: string, password: string, loginAccepted: bool) returns (ok: bool)
      modifies this
      ensures Valid()
      ensures ok == loginAccepted && authenticated == ok
      ensures client == if ok then Some(Client(email)) else old(client)
    {
      if loginAccepted {
        client := Some(Client(email));
        authenticated := true;
        ok := true;
      } else {
        authenticated := false;
        ok := false;
      }
    }

    /**
     * `create_post`: refuses before anything is sent when not authenticated,
     * then when the content (the tags not counted) is longer than the limit;
     * otherwise sends the formatted text and returns the client's response or
     * re-raises its failure. `sent` is the text handed to `api.post`, if any.
     */
    method CreatePost<T>(content: string, tags: Option<seq<string>>, reply: Reply<T>)
      returns (sent: Option<string>, r: Result<T>)
      requires Valid()
      ensures !authenticated ==> sent == None && r == Err(NotAuthenticated)
      ensures authenticated && |content| > Config.MaxPostLength ==> sent == None && r == Err(ContentTooLong)
      ensures authenticated && |content| <= Config.MaxPostLength ==> sent == Some(FormatPost(content, tags))
      ensures authenticated && |content| <= Config.MaxPostLength ==> r == FromReply(reply)
      ensures r.Ok? <==> authenticated && |content| <= Config.MaxPostLength && reply.Accepted?
    {
      if !authenticated {
        return None, Err(NotAuthenticated);
      }
      if |content| > Config.MaxPostLength {
        return None, Err(ContentTooLong);
      }
      sent := Some(FormatPost(content, tags));
      r := FromReply(reply);
    }

    /** `get_profile`: refused when not authenticated, otherwise the client's answer. */
    method GetProfile<T>(reply: Reply<T>) returns (r: Result<T>)
      requires Valid()
      ensures !authenticated ==> r == Err(NotAuthenticated)
      ensures authenticated ==> r == FromReply(reply)
    {
      if !authenticated {
        return Err(NotAuthenticated);
      }
      r := FromReply(reply);
    }

    /** `get_connections`: refused when not authenticated, otherwise the client's answer. */
    method GetConnections<T>(reply: Reply<seq<T>>) returns (r: Result<seq<T>>)
      requires Valid()
      ensures !authenticated ==> r == Err(NotAuthenticated)
      ensures authenticated ==> r == FromReply(reply)
    {
      if !authenticated {
        return Err(NotAuthenticated);
      }
      r := FromReply(reply);
    }

  }

}
