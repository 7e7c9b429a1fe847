/**
 * The verification page's event explorer: a case-insensitive search over the
 * event list, a colour class per event kind, and the labels of event data keys.
 */
module Verify {
  import opened Text

  /** An event; `data` keeps its keys and printed values in order, `timestamp` stays text. */
  datatype Event = Event(id: string, timestamp: string, event: string, data: seq<(string, string)>,
                         txHash: string, blockNumber: nat)

  /** The search box keeps an event whose name or transaction hash contains the query, ignoring case. */
  predicate Matches(e: Event, query: string) {
    Contains(ToLower(e.event), ToLower(query)) || Contains(ToLower(e.txHash), ToLower(query))
  }

  /** The positional reading of `Matches`: the lower-cased query starts at some index of one of the two fields. */
  lemma MatchesAt(e: Event, query: string, name: string, hash: string, q: string)
    requires name == ToLower(e.event) && hash == ToLower(e.txHash) && q == ToLower(query)
    ensures Matches(e, query) <==> (exists i :: OccursAt(name, q, i)) || (exists i :: OccursAt(hash, q, i))
  {
    ContainsAt(name, q);
    ContainsAt(hash, q);
  }

  /** `r` is `s` with some elements dropped and the rest in their original order. */
  ghost predicate IsSubsequence<T>(r: seq<T>, s: seq<T>)
    decreases |s|
  {
    if r == [] then true
    else if s == [] then false
    else (r[0] == s[0] && IsSubsequence(r[1..], s[1..])) || IsSubsequence(r, s[1..])
  }

  /** `filteredEvents`. */
  function FilterEvents(events: seq<Event>, query: string): (r: seq<Event>)
    ensures IsSubsequence(r, events)
    ensures forall e :: e in r <==> e in events && Matches(e, query)
    ensures forall e :: multiset(r)[e] == if Matches(e, query) then multiset(events)[e] else 0
  {
    if events == [] then []
    else
      assert events == [events[0]] + events[1..];
      if Matches(events[0], query) then [events[0]] + FilterEvents(events[1..], query)
      else FilterEvents(events[1..], query)
  }

  /** The empty query keeps every event. */
  lemma {:induction false} EmptyQueryKeepsAll(events: seq<Event>)
    ensures FilterEvents(events, "") == events
  {
    if events != [] {
      EmptyIsContained(ToLower(events[0].event));
      EmptyQueryKeepsAll(events[1..]);
    }
  }

  /** Queries that differ only in letter case select the same events. */
  lemma {:induction false} FilterIgnoresCase(events: seq<Event>, q1: string, q2: string)
    requires ToLower(q1) == ToLower(q2)
    ensures FilterEvents(events, q1) == FilterEvents(events, q2)
  {
    if events != [] {
      FilterIgnoresCase(events[1..], q1, q2);
    }
  }

  /** Searching the search results again with the same query changes nothing. */
  lemma {:induction false} FilterIdempotent(events: seq<Event>, query: string)
    ensures FilterEvents(FilterEvents(events, query), query) == FilterEvents(events, query)
  {
    if events != [] {
      FilterIdempotent(events[1..], query);
    }
  }

  const PrizeDrawnColor: string := "bg-success/10 text-success border-success/30"
  const YieldGeneratedColor: string := "bg-primary/10 text-primary border-primary/30"
  const DepositMadeColor: string := "bg-secondary/10 text-secondary border-secondary/30"
  const WithdrawalMadeColor: string := "bg-accent/10 text-accent border-accent/30"
  const DefaultColor: string := "bg-muted/10 text-muted-foreground border-muted/30"

  predicate IsKnownEvent(eventType: string) {
    eventType == "PrizeDrawn" || eventType == "YieldGenerated"
    || eventType == "DepositMade" || eventType == "WithdrawalMade"
  }

  /** `getEventColor`: a class per known event, the muted default otherwise. */
  function EventColor(eventType: string): (r: string)
    ensures r == DefaultColor <==> !IsKnownEvent(eventType)
    ensures eventType == "PrizeDrawn" ==> r == PrizeDrawnColor
    ensures eventType == "YieldGenerated" ==> r == YieldGeneratedColor
    ensures eventType == "DepositMade" ==> r == DepositMadeColor
    ensures eventType == "WithdrawalMade" ==> r == WithdrawalMadeColor
  {
    match eventType
    case "PrizeDrawn" => PrizeDrawnColor
    case "YieldGenerated" => YieldGeneratedColor
    case "DepositMade" => DepositMadeColor
    case "WithdrawalMade" => WithdrawalMadeColor
    case _ => DefaultColor
  }

  /** Different known events get different colours. */
  lemma EventColorDistinguishesKnown(a: string, b: string)
    requires IsKnownEvent(a) && IsKnownEvent(b) && a != b
    ensures EventColor(a) != EventColor(b)
  {
    // the success and primary classes differ after "bg-"; the other two differ in length
    assert PrizeDrawnColor[3] == 's' && YieldGeneratedColor[3] == 'p';
    assert |PrizeDrawnColor| == |YieldGeneratedColor| == 44;
    assert |DepositMadeColor| == 50 && |WithdrawalMadeColor| == 41;
  }

  // ---------------------------------------------------------------------------
  // Data key labels

  /** `replace(/([A-Z])/g, ' $1')`: a space before every capital letter. */
  function SpaceBeforeCapitals(s: string): (r: string)
    ensures |r| == |s| + CountUpper(s)
    ensures forall i :: 0 <= i < |r| && IsUpper(r[i]) ==> 0 < i && r[i - 1] == ' '
  {
    if s == [] then []
    else
      var head := if IsUpper(s[0]) then [' ', s[0]] else [s[0]];
      var tail := SpaceBeforeCapitals(s[1..]);
      assert forall i :: |head| <= i < |head| + |tail| ==> (head + tail)[i] == tail[i - |head|];
      head + tail
  }

  function CountUpper(s: string): nat {
    if s == [] then 0 else (if IsUpper(s[0]) then 1 else 0) + CountUpper(s[1..])
  }

  function RemoveSpaces(s: string): string {
    if s == [] then [] else (if s[0] == ' ' then [] else [s[0]]) + RemoveSpaces(s[1..])
  }

  /** The label of a data key: spaces before capitals, then lower case. */
  function KeyLabel(key: string): (r: string)
    ensures HasNoUpper(r)
    ensures |r| == |key| + CountUpper(key)
  {
    ToLower(SpaceBeforeCapitals(key))
  }

  lemma {:induction false} RemoveSpacesAppend(a: string, b: string)
    ensures RemoveSpaces(a + b) == RemoveSpaces(a) + RemoveSpaces(b)
  {
    if a == [] {
      assert a + b == b;
    } else {
      assert (a + b)[0] == a[0];
      assert (a + b)[1..] == a[1..] + b;
      RemoveSpacesAppend(a[1..], b);
    }
  }

  lemma LowerAppend(a: string, b: string)
    ensures ToLower(a + b) == ToLower(a) + ToLower(b)
  {
  }

  lemma {:induction false} SpacingAppend(a: string, b: string)
    ensures SpaceBeforeCapitals(a + b) == SpaceBeforeCapitals(a) + SpaceBeforeCapitals(b)
  {
    if a == [] {
      assert a + b == b;
    } else {
      assert (a + b)[0] == a[0];
      assert (a + b)[1..] == a[1..] + b;
      SpacingAppend(a[1..], b);
    }
  }

  lemma {:induction false} SpacingWithoutCapitals(s: string)
    requires HasNoUpper(s)
    ensures SpaceBeforeCapitals(s) == s
  {
    if s != [] {
      SpacingWithoutCapitals(s[1..]);
    }
  }

  lemma LowerWithoutCapitals(s: string)
    requires HasNoUpper(s)
    ensures ToLower(s) == s
  {
  }

  /** The label of `word + capital + rest`, with no other capitals, is `word`, a space, then lower case. */
  lemma {:induction false} OneCapitalLabel(word: string, capital: char, rest: string)
    requires HasNoUpper(word) && HasNoUpper(rest) && IsUpper(capital)
    ensures KeyLabel(word + [capital] + rest) == word + [' ', LowerChar(capital)] + rest
  {
    var spaced := word + [' ', capital] + rest;
    calc {
      SpaceBeforeCapitals(word + [capital] + rest);
      { SpacingAppend(word + [capital], rest); }
      SpaceBeforeCapitals(word + [capital]) + SpaceBeforeCapitals(rest);
      { SpacingAppend(word, [capital]); SpacingWithoutCapitals(rest); }
      SpaceBeforeCapitals(word) + SpaceBeforeCapitals([capital]) + rest;
      { SpacingWithoutCapitals(word); assert [capital][1..] == []; }
      spaced;
    }
    calc {
      ToLower(spaced);
      { LowerAppend(word + [' ', capital], rest); }
      ToLower(word + [' ', capital]) + ToLower(rest);
      { LowerAppend(word, [' ', capital]); LowerWithoutCapitals(rest); }
      ToLower(word) + ToLower([' ', capital]) + rest;
      { LowerWithoutCapitals(word); }
      word + [' ', LowerChar(capital)] + rest;
    }
  }

  /** Lowering a string keeps its spaces where they are. */
  lemma {:induction false} RemoveSpacesOfLower(s: string)
    ensures RemoveSpaces(ToLower(s)) == ToLower(RemoveSpaces(s))
  {
    if s != [] {
      RemoveSpacesOfLower(s[1..]);
      assert ToLower(s) == [LowerChar(s[0])] + ToLower(s[1..]);
      RemoveSpacesAppend([LowerChar(s[0])], ToLower(s[1..]));
      LowerAppend(if s[0] == ' ' then [] else [s[0]], RemoveSpaces(s[1..]));
    }
  }

  /** Deleting the inserted spaces from the spaced form of a key without spaces gives the key back. */
  lemma {:induction false} SpacingRemoved(key: string)
    requires forall i :: 0 <= i < |key| ==> key[i] != ' '
    ensures RemoveSpaces(SpaceBeforeCapitals(key)) == key
  {
    if key != [] {
      var head := if IsUpper(key[0]) then [' ', key[0]] else [key[0]];
      RemoveSpacesAppend(head, SpaceBeforeCapitals(key[1..]));
      SpacingRemoved(key[1..]);
      assert RemoveSpaces(head) == [key[0]];
    }
  }

  /** Deleting the spaces from the label of a key without spaces gives the key in lower case. */
  lemma {:induction false} KeyLabelUndoesSpacing(key: string)
    requires forall i :: 0 <= i < |key| ==> key[i] != ' '
    ensures RemoveSpaces(KeyLabel(key)) == ToLower(key)
  {
    RemoveSpacesOfLower(SpaceBeforeCapitals(key));
    SpacingRemoved(key);
  }

  /** The keys of the mock events print as "random seed", "new tickets" and "tickets lost". */
  lemma RandomSeedLabel()
    ensures KeyLabel("randomSeed") == "random seed"
  {
    var word, rest := "random", "eed";
    assert HasNoUpper(word) && HasNoUpper(rest);
    assert "randomSeed" == word + ['S'] + rest;
    OneCapitalLabel(word, 'S', rest);
    assert LowerChar('S') == 's';
    assert word + [' ', 's'] + rest == "random seed";
  }

  lemma NewTicketsLabel()
    ensures KeyLabel("newTickets") == "new tickets"
  {
    var word, rest := "new", "ickets";
    assert HasNoUpper(word) && HasNoUpper(rest);
    assert "newTickets" == word + ['T'] + rest;
    OneCapitalLabel(word, 'T', rest);
    assert LowerChar('T') == 't';
    assert word + [' ', 't'] + rest == "new tickets";
  }

  lemma TicketsLostLabel()
    ensures KeyLabel("ticketsLost") == "tickets lost"
  {
    var word, rest := "tickets", "ost";
    assert HasNoUpper(word) && HasNoUpper(rest);
    assert "ticketsLost" == word + ['L'] + rest;
    OneCapitalLabel(word, 'L', rest);
    assert LowerChar('L') == 'l';
    assert word + [' ', 'l'] + rest == "tickets lost";
  }
}
