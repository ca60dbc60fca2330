/**
 * The entry page: a username and a room id typed into a form, a Join button
 * and a Create button. Each click decides whether to navigate and builds the
 * target by plain string concatenation, with no escaping.
 *
 * The room id Create generates from `Math.random()` is a parameter here.
 */
module Home {
  import opened Wrappers

  /** The two text fields of the form. */
  datatype Form = Form(username: string, roomId: string)

  const TargetPrefix: string := "/whiteboard?username="
  const RoomIdKey: string := "&roomId="

  /** The whiteboard address for a user and a room: the two values spliced in verbatim. */
  function WhiteboardTarget(username: string, roomId: string): (url: string)
    ensures |url| == |TargetPrefix| + |username| + |RoomIdKey| + |roomId|
    ensures url[..|TargetPrefix|] == TargetPrefix
    ensures url[|TargetPrefix|..|TargetPrefix| + |username|] == username
    ensures url[|TargetPrefix| + |username|..|TargetPrefix| + |username| + |RoomIdKey|] == RoomIdKey
    ensures url[|url| - |roomId|..] == roomId
  {
    TargetPrefix + username + RoomIdKey + roomId
  }

  /** Join navigates only when both fields are non-empty (JavaScript truthiness of strings). */
  function HandleJoin(f: Form): (r: Option<string>)
    ensures r.Some? <==> f.username != "" && f.roomId != ""
    ensures r.Some? ==> r.value == WhiteboardTarget(f.username, f.roomId)
  {
    if f.username != "" && f.roomId != "" then Some(WhiteboardTarget(f.username, f.roomId)) else None
  }

  /** Create navigates whenever the username is non-empty, to the freshly generated room. */
  function HandleCreate(f: Form, generated: string): (r: Option<string>)
    ensures r.Some? <==> f.username != ""
    ensures r.Some? ==> r.value == WhiteboardTarget(f.username, generated)
  {
    if f.username != "" then Some(WhiteboardTarget(f.username, generated)) else None
  }

  /** The Join button is disabled when either field is empty. */
  function JoinEnabled(f: Form): (enabled: bool)
    ensures enabled <==> HandleJoin(f).Some?
  {
    !(f.username == "" || f.roomId == "")
  }

  /** The Create button is disabled when the username is empty. */
  function CreateEnabled(f: Form): (enabled: bool)
    ensures forall g :: enabled <==> HandleCreate(f, g).Some?
  {
    !(f.username == "")
  }

  /** What the user can do on the page. */
  datatype Input =
    | TypeUsername(username: string)
    | TypeRoomId(roomId: string)
    | ClickJoin
    | ClickCreate(generated: string)

  /** One input: the form afterwards and the navigation it triggers, if any. */
  function HomeStep(f: Form, i: Input): (r: (Form, Option<string>))
    ensures i.TypeUsername? ==> r == (f.(username := i.username), None)
    ensures i.TypeRoomId? ==> r == (f.(roomId := i.roomId), None)
    ensures i.ClickJoin? || i.ClickCreate? ==> r.0 == f
    ensures i.ClickJoin? ==> (r.1.Some? <==> JoinEnabled(f))
    ensures i.ClickCreate? ==> (r.1.Some? <==> CreateEnabled(f))
    ensures i.ClickJoin? ==> r.1 == HandleJoin(f)
    ensures i.ClickCreate? ==> r.1 == HandleCreate(f, i.generated)
  {
    match i
    case TypeUsername(u) => (f.(username := u), None)
    case TypeRoomId(id) => (f.(roomId := id), None)
    case ClickJoin => (f, HandleJoin(f))
    case ClickCreate(g) => (f, HandleCreate(f, g))
  }

  /** Create ignores whatever room id was typed. */
  lemma CreateIgnoresTypedRoom(f: Form, typed: string, generated: string)
    ensures HandleCreate(f.(roomId := typed), generated) == HandleCreate(f, generated)
  {
  }

  /** The first '&' in `s` at or after `from`, or |s| if there is none. */
  function FirstAmpersand(s: string, from: nat): (k: nat)
    requires from <= |s|
    ensures from <= k <= |s|
    ensures k < |s| ==> s[k] == '&'
    ensures forall j :: from <= j < k ==> s[j] != '&'
    decreases |s| - from
  {
    if from == |s| || s[from] == '&' then from else FirstAmpersand(s, from + 1)
  }

  /**
   * Split a whiteboard address back into username and room id: the username
   * runs to the first '&', which must open the room-id key.
   */
  function SplitTarget(url: string): Option<(string, string)> {
    if |url| < |TargetPrefix| || url[..|TargetPrefix|] != TargetPrefix then None
    else
      var k := FirstAmpersand(url, |TargetPrefix|);
      if |url| - k < |RoomIdKey| || url[k..k + |RoomIdKey|] != RoomIdKey then None
      else Some((url[|TargetPrefix|..k], url[k + |RoomIdKey|..]))
  }

  /** A username free of '&' can be recovered from the address, and so can the room id. */
  lemma SplitTargetRoundTrip(username: string, roomId: string)
    requires forall j :: 0 <= j < |username| ==> username[j] != '&'
    ensures SplitTarget(WhiteboardTarget(username, roomId)) == Some((username, roomId))
  {
    var url := WhiteboardTarget(username, roomId);
    var p := |TargetPrefix|;
    var k := p + |username|;
    assert url[k] == '&';
    assert FirstAmpersand(url, p) == k;
    assert url[k..k + |RoomIdKey|] == RoomIdKey;
    assert url[k + |RoomIdKey|..] == roomId;
  }

  /** With '&'-free usernames, distinct (username, room) pairs give distinct addresses. */
  lemma TargetInjective(u1: string, r1: string, u2: string, r2: string)
    requires forall j :: 0 <= j < |u1| ==> u1[j] != '&'
    requires forall j :: 0 <= j < |u2| ==> u2[j] != '&'
    requires WhiteboardTarget(u1, r1) == WhiteboardTarget(u2, r2)
    ensures u1 == u2 && r1 == r2
  {
    SplitTargetRoundTrip(u1, r1);
    SplitTargetRoundTrip(u2, r2);
  }

  /** Without escaping, a username containing '&' collides with a different pair. */
  lemma TargetAmbiguousWithAmpersand()
    ensures WhiteboardTarget("a&roomId=b", "c") == WhiteboardTarget("a", "b&roomId=c")
    ensures HandleJoin(Form("a&roomId=b", "c")) == HandleJoin(Form("a", "b&roomId=c"))
  {
  }
}
