/** The vent space: an in-memory list of anonymous posts, newest first.
    Every post made here schedules its own removal ten minutes later; the
    three sample posts shown on mount have no such timer. */
module Vent {
  import opened Text

  /** One post; the timestamp is in milliseconds. */
  datatype VentPost = VentPost(id: string, message: string, timestamp: int)

  /** A scheduled one-shot removal of the posts carrying `id`, due at `due`. */
  datatype Expiry = Expiry(id: string, due: int)

  const MinuteMs: int := 60 * 1000
  const ExpiryDelayMs: int := 10 * MinuteMs

  const Sample1: string := "Feeling overwhelmed with work and personal life. Just need a break."
  const Sample2: string := "Why is it so hard to make friends as an adult?"
  const Sample3: string := "Having one of those days where everything feels like a struggle."

  /** The posts shown on mount, stamped relative to the mount time. */
  function SamplePosts(mount: int): seq<VentPost> {
    [
      VentPost("1", Sample1, mount - 2 * MinuteMs),
      VentPost("2", Sample2, mount - 5 * MinuteMs),
      VentPost("3", Sample3, mount - 8 * MinuteMs)
    ]
  }

  /** The samples are three, with distinct ids, strictly newest first, and
      all stamped before the mount. */
  lemma SamplesOrdered(mount: int)
    ensures var r := SamplePosts(mount);
      && |r| == 3
      && (forall i, j | 0 <= i < j < |r| :: r[i].id != r[j].id && r[i].timestamp > r[j].timestamp)
      && (forall i | 0 <= i < |r| :: r[i].timestamp < mount)
  {
  }

  /** `posts.filter(post => post.id !== id)`. */
  function WithoutId(posts: seq<VentPost>, id: string): (r: seq<VentPost>)
    ensures |r| <= |posts|
    ensures forall k | 0 <= k < |r| :: r[k].id != id && r[k] in posts
    ensures forall p | p in posts && p.id != id :: p in r
  {
    if posts == [] then []
    else
      var rest := WithoutId(posts[1..], id);
      assert forall p | p in posts[1..] :: p in posts;
      if posts[0].id == id then rest else [posts[0]] + rest
  }

  /** Filtering works piece by piece, so the posts kept stay in their order. */
  lemma {:induction false} WithoutIdAppend(a: seq<VentPost>, b: seq<VentPost>, id: string)
    ensures WithoutId(a + b, id) == WithoutId(a, id) + WithoutId(b, id)
    decreases |a|
  {
    if a == [] {
      assert a + b == b;
    } else {
      assert (a + b)[0] == a[0];
      assert (a + b)[1..] == a[1..] + b;
      WithoutIdAppend(a[1..], b, id);
    }
  }

  /** Removing an id that no post carries changes nothing. */
  lemma {:induction false} WithoutAbsentId(posts: seq<VentPost>, id: string)
    requires forall k | 0 <= k < |posts| :: posts[k].id != id
    ensures WithoutId(posts, id) == posts
    decreases |posts|
  {
    if posts != [] {
      WithoutAbsentId(posts[1..], id);
    }
  }

  /** Removal is idempotent: a second expiry of the same id is a no-op. */
  lemma WithoutIdTwice(posts: seq<VentPost>, id: string)
    ensures WithoutId(WithoutId(posts, id), id) == WithoutId(posts, id)
  {
    WithoutAbsentId(WithoutId(posts, id), id);
  }

  /** A post's own expiry takes it off the front and leaves the rest as
      their own removal would. */
  lemma WithoutPrepended(p: VentPost, posts: seq<VentPost>)
    ensures WithoutId([p] + posts, p.id) == WithoutId(posts, p.id)
  {
    assert ([p] + posts)[1..] == posts;
  }

  /** `getTimeAgo`, with the clock passed in: whole minutes elapsed, rounded
      down. */
  function TimeAgo(now: int, timestamp: int): (r: string)
    ensures r == "just now" <==> 0 <= now - timestamp < MinuteMs
    ensures r == "1 minute ago" <==> MinuteMs <= now - timestamp < 2 * MinuteMs
    ensures !(0 <= now - timestamp < 2 * MinuteMs) ==> r == IntText((now - timestamp) / MinuteMs) + " minutes ago"
  {
    var minutes := (now - timestamp) / MinuteMs;
    if minutes == 0 then "just now"
    else if minutes == 1 then "1 minute ago"
    else
      var r := IntText(minutes) + " minutes ago";
      assert |r| > |"1 minute ago"|;
      r
  }

  /** A post made a whole number of minutes ago, from two to nine. */
  lemma MinutesAgo(now: int, timestamp: int, minutes: nat)
    requires 2 <= minutes <= 9 && now - timestamp == minutes * MinuteMs
    ensures TimeAgo(now, timestamp) == [DigitChar(minutes)] + " minutes ago"
  {
    assert (now - timestamp) / MinuteMs == minutes;
  }

  /** On mount the samples read as posted two, five and eight minutes ago:
      the `k`-th one `3 * k + 2` minutes ago. */
  lemma SampleAges(mount: int, k: nat)
    requires k < |SamplePosts(mount)|
    ensures TimeAgo(mount, SamplePosts(mount)[k].timestamp) == [DigitChar(3 * k + 2)] + " minutes ago"
  {
    var t := SamplePosts(mount)[k].timestamp;
    assert mount - t == (3 * k + 2) * MinuteMs;
    MinutesAgo(mount, t, 3 * k + 2);
  }

  /** The vent space's state: the draft, the posts on show, and the
      removal timers still pending. */
  class VentBoard {
    var draft: string
    var posts: seq<VentPost>
    var timers: seq<Expiry>
    const mount: int

    /** Every post on show is a sample or has its removal scheduled ten
        minutes after it was made. */
    ghost predicate Valid()
      reads this
    {
      forall p | p in posts ::
        p in SamplePosts(mount) || exists t | t in timers :: t.id == p.id && t.due == p.timestamp + ExpiryDelayMs
    }

    /** Mounting at time `mountTime` shows the three samples. */
    constructor (mountTime: int)
      ensures Valid()
      ensures mount == mountTime && posts == SamplePosts(mountTime) && timers == [] && draft == []
    {
      mount := mountTime;
      posts := SamplePosts(mountTime);
      timers := [];
      draft := [];
    }

    /** The message field's change handler. */
    method EditDraft(text: string)
      requires Valid()
      modifies this
      ensures Valid()
      ensures draft == text && posts == old(posts) && timers == old(timers)
    {
      draft := text;
    }

    /** `postVent`, with the clock passed in: a blank draft is refused;
        otherwise the post goes in front, the draft is cleared and its
        removal is scheduled ten minutes on. */
    method PostVent(now: nat) returns (ok: bool)
      requires Valid()
      modifies this
      ensures Valid()
      ensures ok <==> !IsBlank(old(draft))
      ensures !ok ==> draft == old(draft) && posts == old(posts) && timers == old(timers)
      ensures ok ==> posts == [VentPost(Decimal(now), old(draft), now)] + old(posts)
      ensures ok ==> timers == old(timers) + [Expiry(Decimal(now), now + ExpiryDelayMs)]
      ensures ok ==> draft == []
    {
      if IsBlank(draft) {
        return false;
      }
      var post := VentPost(Decimal(now), draft, now);
      posts := [post] + posts;
      draft := [];
      timers := timers + [Expiry(post.id, now + ExpiryDelayMs)];
      ok := true;
    }

    /** The body of the `k`-th pending timer: every post with its id goes. */
    method FireTimer(k: nat)
      requires Valid() && k < |timers|
      modifies this
      ensures Valid()
      ensures posts == WithoutId(old(posts), old(timers)[k].id)
      ensures timers == old(timers)[..k] + old(timers)[k + 1..]
      ensures draft == old(draft)
    {
      var id := timers[k].id;
      ghost var before := timers;
      posts := WithoutId(posts, id);
      timers := timers[..k] + timers[k + 1..];
      forall t | t in before && t.id != id
        ensures t in timers
      {
        var j :| 0 <= j < |before| && before[j] == t;
        assert j != k;
        if j < k {
          assert timers[j] == t;
        } else {
          assert timers[j - 1] == t;
        }
      }
    }
  }
}
