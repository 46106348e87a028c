// Redis channel names: the two printers (message_service.go, pubsub.go) and the parser
// extractRoomIDAndEvent of internal/server/server.go.
module Channels {

  const PREFIX: string := "ws:room:"
  const EVENTS: string := ":events"

  function RoomChannel(roomID: string): string { PREFIX + roomID }

  function EventsChannel(roomID: string): string { PREFIX + roomID + EVENTS }

  /** Where the first `c` is, or -1. */
  function IndexOf(s: string, c: char): (i: int)
    ensures -1 <= i < |s|
    ensures i == -1 <==> c !in s
    ensures i >= 0 ==> s[i] == c && c !in s[..i]
  {
    if s == "" then -1
    else if s[0] == c then 0
    else
      var rest := IndexOf(s[1..], c);
      assert rest >= 0 ==> s[..rest + 1] == [s[0]] + s[1..][..rest];
      if rest == -1 then -1 else rest + 1
  }

  function ExtractRoomIDAndEvent(channel: string): (string, string) {
    if !(PREFIX <= channel) then ("", "")
    else SplitAtColon(channel[|PREFIX|..])
  }

  function SplitAtColon(rest: string): (string, string) {
    var i := IndexOf(rest, ':');
    if i != -1 then (rest[..i], rest[i + 1..]) else (rest, "")
  }

  lemma {:induction false} FirstIs(s: string, k: nat)
    requires k < |s| && s[k] == ':' && (forall j | 0 <= j < k :: s[j] != ':')
    ensures IndexOf(s, ':') == k
  {
    if k > 0 {
      FirstIs(s[1..], k - 1);
    }
  }

  lemma FirstColon(roomID: string, tail: string)
    requires ':' !in roomID
    ensures IndexOf(roomID + [':'] + tail, ':') == |roomID|
  {
    var s := roomID + [':'] + tail;
    assert s[|roomID|] == ':';
    assert forall k | 0 <= k < |roomID| :: s[k] == roomID[k];
    FirstIs(s, |roomID|);
  }

  lemma ParsesRest(rest: string)
    ensures ExtractRoomIDAndEvent(PREFIX + rest) == SplitAtColon(rest)
  {
    assert (PREFIX + rest)[|PREFIX|..] == rest;
  }

  /** The parser undoes the message channel's printer exactly for room ids without a colon. */
  lemma RoomChannelParsesIff(roomID: string)
    ensures ExtractRoomIDAndEvent(RoomChannel(roomID)) == (roomID, "") <==> ':' !in roomID
  {
    ParsesRest(roomID);
    var i := IndexOf(roomID, ':');
    if i != -1 {
      assert |roomID[..i]| < |roomID|;
    }
  }

  /** And the event channel's printer exactly for the same ids. */
  lemma EventsChannelParsesIff(roomID: string)
    ensures ExtractRoomIDAndEvent(EventsChannel(roomID)) == (roomID, "events") <==> ':' !in roomID
  {
    assert EventsChannel(roomID) == PREFIX + (roomID + EVENTS);
    ParsesRest(roomID + EVENTS);
    SplitsEventIff(roomID);
  }

  lemma SplitsEventIff(roomID: string)
    ensures SplitAtColon(roomID + EVENTS) == (roomID, "events") <==> ':' !in roomID
  {
    var rest := roomID + EVENTS;
    if ':' !in roomID {
      assert rest == roomID + [':'] + "events";
      FirstColon(roomID, "events");
      assert rest[..|roomID|] == roomID && rest[|roomID| + 1..] == "events";
    } else {
      var k := IndexOf(roomID, ':');
      assert forall j | 0 <= j < k :: roomID[j] == roomID[..k][j];
      FirstIs(rest, k);
      assert |rest[..k]| < |roomID|;
    }
  }

  /** No message channel of one room is the message or event channel of another. */
  lemma ChannelsAreApart(a: string, b: string)
    requires ':' !in a && ':' !in b
    ensures RoomChannel(a) == RoomChannel(b) ==> a == b
    ensures EventsChannel(a) == EventsChannel(b) ==> a == b
    ensures RoomChannel(a) != EventsChannel(b)
  {
    RoomChannelParsesIff(a);
    RoomChannelParsesIff(b);
    EventsChannelParsesIff(a);
    EventsChannelParsesIff(b);
  }

  lemma SplitIsJoined(rest: string)
    ensures var (roomID, event) := SplitAtColon(rest);
            && ':' !in roomID
            && (rest == roomID || rest == roomID + [':'] + event)
            && (roomID == "" <==> rest == "" || rest[0] == ':')
  {
    var i := IndexOf(rest, ':');
    if i != -1 {
      assert rest == rest[..i] + [':'] + rest[i + 1..];
      assert i > 0 ==> rest[0] == rest[..i][0];
    }
  }

  /** A channel with another prefix names no room; any other was written the way the parser reads it. */
  lemma ParsedIsPrinted(channel: string)
    ensures var (roomID, event) := ExtractRoomIDAndEvent(channel);
            if |channel| < 8 || channel[..8] != "ws:room:" then roomID == "" && event == ""
            else
              var rest := channel[8..];
              && ':' !in roomID && (rest == roomID || rest == roomID + [':'] + event)
              && (roomID == "" <==> rest == "" || rest[0] == ':')
  {
    if |channel| >= 8 && channel[..8] == "ws:room:" {
      assert channel == PREFIX + channel[8..];
      ParsesRest(channel[8..]);
      SplitIsJoined(channel[8..]);
    } else {
      assert !(PREFIX <= channel);
    }
  }
}
