/**
  The route check of the conversation page (`MessagePage` in
  apps/web/src/components/Messages/Message.tsx): from the catch-all route
  parameter and the signed-in profile id it decides between the not-found
  page and the conversation view for the joined key.
*/
module Route {
  import opened Js

  /** `router.query.conversationKey`: `undefined`, a single string or the array of path segments. */
  datatype RouteParam = Missing | Single(s: string) | Segments(segments: seq<string>)

  /** What the page renders. */
  datatype PageOutcome = NotFound | RenderMessage(conversationKey: string)

  /** `segments.join('/')` */
  function Join(segments: seq<string>): (r: string)
    // an empty route joins to the empty key
    ensures |segments| == 0 ==> r == ""
    // the key starts with the first segment
    ensures |segments| > 0 ==> segments[0] <= r
    decreases |segments|
  {
    if |segments| == 0 then ""
    else if |segments| == 1 then segments[0]
    else segments[0] + "/" + Join(segments[1..])
  }

  /** The joined key ends with the last segment. */
  lemma {:induction false} JoinEndsWithLast(segments: seq<string>)
    requires |segments| > 0
    ensures |segments[|segments| - 1]| <= |Join(segments)|
    ensures Join(segments)[|Join(segments)| - |segments[|segments| - 1]|..] == segments[|segments| - 1]
    decreases |segments|
  {
    if |segments| > 1 {
      JoinEndsWithLast(segments[1..]);
      var last := segments[|segments| - 1];
      var tail := Join(segments[1..]);
      assert segments[1..][|segments[1..]| - 1] == last;
      assert Join(segments) == (segments[0] + "/") + tail;
      assert (segments[0] + "/" + tail)[|Join(segments)| - |last|..] == tail[|tail| - |last|..];
    }
  }

  /** Cutting a string at every `/`: the inverse of Join on segments free of `/`. */
  function Split(s: string): (r: seq<string>)
    ensures |r| > 0
    decreases |s|
  {
    if s == [] then [""]
    else if s[0] == '/' then [""] + Split(s[1..])
    else
      var rest := Split(s[1..]);
      [[s[0]] + rest[0]] + rest[1..]
  }

  lemma {:induction false} SplitNoSlash(s: string)
    requires '/' !in s
    ensures Split(s) == [s]
    decreases |s|
  {
    if s != [] {
      SplitNoSlash(s[1..]);
      assert [s[0]] + s[1..] == s;
    }
  }

  lemma {:induction false} SplitAtFirstSlash(s: string, t: string)
    requires '/' !in s
    ensures Split(s + "/" + t) == [s] + Split(t)
    decreases |s|
  {
    if s == [] {
      assert s + "/" + t == ['/'] + t;
      assert (['/'] + t)[1..] == t;
    } else {
      assert (s + "/" + t)[1..] == s[1..] + "/" + t;
      SplitAtFirstSlash(s[1..], t);
      assert [s[0]] + s[1..] == s;
    }
  }

  /**
    Route segments can be recovered from their joined key, provided that no
    segment contains `/` (an assumption about the router: a `%2F` in the path
    may decode to `/` inside one segment, and then this does not hold).
  */
  lemma {:induction false} SplitJoin(segments: seq<string>)
    requires |segments| > 0
    requires forall n :: 0 <= n < |segments| ==> '/' !in segments[n]
    ensures Split(Join(segments)) == segments
    decreases |segments|
  {
    if |segments| == 1 {
      SplitNoSlash(segments[0]);
    } else {
      assert Join(segments) == segments[0] + "/" + Join(segments[1..]);
      SplitAtFirstSlash(segments[0], Join(segments[1..]));
      SplitJoin(segments[1..]);
    }
  }

  /** Two different non-empty routes whose segments hold no `/` never lead to the same conversation key. */
  lemma JoinInjective(a: seq<string>, b: seq<string>)
    requires |a| > 0 && |b| > 0
    requires forall n :: 0 <= n < |a| ==> '/' !in a[n]
    requires forall n :: 0 <= n < |b| ==> '/' !in b[n]
    requires Join(a) == Join(b)
    ensures a == b
  {
    SplitJoin(a);
    SplitJoin(b);
  }

  /** `members.find((member) => member !== currentProfileId)`: the first member other than the current profile. */
  function FindOther(members: seq<string>, currentProfileId: string): (r: Option<string>)
    ensures r.None? <==> forall m :: m in members ==> m == currentProfileId
    ensures r.Some? ==> r.value in members && r.value != currentProfileId
    // it is the first such member
    ensures r.Some? ==> exists i :: 0 <= i < |members| && members[i] == r.value
                          && forall n :: 0 <= n < i ==> members[n] == currentProfileId
    decreases |members|
  {
    if |members| == 0 then None
    else if members[0] != currentProfileId then
      assert members[0] in members;
      Some(members[0])
    else
      var r := FindOther(members[1..], currentProfileId);
      assert members == [members[0]] + members[1..];
      assert forall m :: m in members[1..] ==> m in members;
      assert forall m :: m in members ==> m == members[0] || m in members[1..];
      assert r.Some? ==> exists i :: 0 <= i < |members[1..]| && members[1..][i] == r.value
                          && forall n :: 0 <= n < i ==> members[1..][n] == currentProfileId;
      r
  }

  /**
    The first member other than the current profile exists and is truthy:
    some member differs from the current profile, is not empty, and every
    member before it is the current profile.
  */
  ghost predicate FirstOtherTruthy(members: seq<string>, currentProfileId: string) {
    exists i :: 0 <= i < |members| && members[i] != currentProfileId && members[i] != ""
                && forall n :: 0 <= n < i ==> members[n] == currentProfileId
  }

  /** What `find` returns is truthy exactly when the first other member is a non-empty string. */
  lemma FindOtherTruthy(members: seq<string>, currentProfileId: string)
    ensures Truthy(FindOther(members, currentProfileId)) <==> FirstOtherTruthy(members, currentProfileId)
  {
    var r := FindOther(members, currentProfileId);
    if FirstOtherTruthy(members, currentProfileId) {
      var i :| 0 <= i < |members| && members[i] != currentProfileId && members[i] != ""
               && forall n :: 0 <= n < i ==> members[n] == currentProfileId;
      assert members[i] in members;
      var j :| 0 <= j < |members| && members[j] == r.value
               && forall n :: 0 <= n < j ==> members[n] == currentProfileId;
      assert !(j < i) && !(i < j);
    }
  }

  /**
    MessagePage: the not-found page unless the route parameter is an array, a
    profile id is signed in, the joined key parses, and a key with more than one
    member has a truthy first member other than the current profile; otherwise
    the conversation view for the joined key. `parse` is parseConversationKey,
    giving the member list or nothing.
  */
  function MessagePage(conversationKey: RouteParam, currentProfileId: Option<string>,
                       parse: string -> Option<seq<string>>): (r: PageOutcome)
    // no route array or nobody signed in
    ensures !conversationKey.Segments? || !Truthy(currentProfileId) ==> r == NotFound
    // a key that does not parse
    ensures conversationKey.Segments? && parse(Join(conversationKey.segments)).None? ==> r == NotFound
    // a group whose members are all the current profile
    ensures conversationKey.Segments? && Truthy(currentProfileId)
            && parse(Join(conversationKey.segments)).Some?
            && |parse(Join(conversationKey.segments)).value| > 1
            && (forall m :: m in parse(Join(conversationKey.segments)).value ==> m == currentProfileId.value)
            ==> r == NotFound
    // the rendered view always gets the joined route, and only for a key that parses
    ensures r.RenderMessage? ==> (conversationKey.Segments? && Truthy(currentProfileId)
                                  && r.conversationKey == Join(conversationKey.segments)
                                  && parse(r.conversationKey).Some?)
    // a rendered group has a member, other than the current profile, that is not empty
    ensures r.RenderMessage? && |parse(r.conversationKey).value| > 1
            ==> exists m :: m in parse(r.conversationKey).value && m != currentProfileId.value && m != ""
    // a single-member (or empty) key always renders
    ensures conversationKey.Segments? && Truthy(currentProfileId)
            && parse(Join(conversationKey.segments)).Some?
            && |parse(Join(conversationKey.segments)).value| <= 1
            ==> r == RenderMessage(Join(conversationKey.segments))
    // a group with no empty member renders exactly when some member is not the current profile
    ensures conversationKey.Segments? && Truthy(currentProfileId)
            && parse(Join(conversationKey.segments)).Some?
            && (forall m :: m in parse(Join(conversationKey.segments)).value ==> m != "")
            ==> (r.RenderMessage? <==> (|parse(Join(conversationKey.segments)).value| <= 1
                                        || exists m :: m in parse(Join(conversationKey.segments)).value
                                                         && m != currentProfileId.value))
    // in general a key that parses renders exactly when it has at most one member or
    // its first member other than the current profile is not empty
    ensures conversationKey.Segments? && Truthy(currentProfileId)
            && parse(Join(conversationKey.segments)).Some?
            ==> (r.RenderMessage? <==> (|parse(Join(conversationKey.segments)).value| <= 1
                                        || FirstOtherTruthy(parse(Join(conversationKey.segments)).value,
                                                            currentProfileId.value)))
  {
    if !conversationKey.Segments? || !Truthy(currentProfileId) then NotFound
    else
      var joinedConversationKey := Join(conversationKey.segments);
      match parse(joinedConversationKey)
      case None => NotFound
      case Some(members) =>
        var profileId := FindOther(members, currentProfileId.value);
        FindOtherTruthy(members, currentProfileId.value);
        if |members| > 1 && !Truthy(profileId) then NotFound
        else
          assert |members| > 1 ==> profileId.value in members;
          RenderMessage(joinedConversationKey)
  }

  /**
    The page itself does not check that the current profile is a member: a
    two-member key naming two other profiles still renders the view.
  */
  lemma OutsiderPairRenders(segments: seq<string>, me: string, a: string, b: string,
                            parse: string -> Option<seq<string>>)
    requires me != "" && a != "" && b != "" && a != me && b != me
    requires parse(Join(segments)) == Some([a, b])
    ensures MessagePage(Segments(segments), Some(me), parse) == RenderMessage(Join(segments))
  {
  }

  /**
    `find` returns the first member other than the current profile; when that
    member is the empty string the page is not found, whatever members follow it
    (a later member other than the current profile does not help).
  */
  lemma EmptyFirstOtherHidesLaterMember(segments: seq<string>, me: string, members: seq<string>, i: nat,
                                        parse: string -> Option<seq<string>>)
    requires me != "" && |members| > 1 && parse(Join(segments)) == Some(members)
    requires i < |members| && members[i] == "" && forall n :: 0 <= n < i ==> members[n] == me
    ensures MessagePage(Segments(segments), Some(me), parse) == NotFound
  {
    assert members[i] in members && members[i] != me;
    var r := FindOther(members, me);
    var j :| 0 <= j < |members| && members[j] == r.value
             && forall n :: 0 <= n < j ==> members[n] == me;
    assert !(j < i) && !(i < j);
    assert r == Some("");
  }
}
