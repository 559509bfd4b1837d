/**
 * The appointments page: which appointments a user sees, how they are split
 * into upcoming and past, and whose name is shown on each card.
 *
 * Times are integers (milliseconds since the epoch); `now` is the clock
 * reading the page takes once per request.
 */
module AppointmentsPage {
  import opened Wrappers
  import opened Profiles
  import UserHeader

  /** The joined `users` row of one side of an appointment: `seller:seller_id (name, email)`. */
  datatype Party = Party(name: Option<string>, email: Option<string>)

  /** A row of the `appointments` table with both joined parties. */
  datatype Appointment = Appointment(
    id: string,
    sellerId: string,
    buyerId: string,
    startTime: int,
    endTime: int,
    seller: Party,
    buyer: Party)

  /** The two owner columns of an appointment. */
  datatype Side = SellerSide | BuyerSide

  function OwnerId(apt: Appointment, side: Side): string
  {
    match side
    case SellerSide => apt.sellerId
    case BuyerSide => apt.buyerId
  }

  function PartyOn(apt: Appointment, side: Side): Party
  {
    match side
    case SellerSide => apt.seller
    case BuyerSide => apt.buyer
  }

  function Opposite(side: Side): Side
  {
    match side
    case SellerSide => BuyerSide
    case BuyerSide => SellerSide
  }

  /** The column the query filters on: `seller_id` for a seller, `buyer_id` for every other role. */
  function QuerySide(profile: Profile): (side: Side)
    ensures side == SellerSide <==> IsSellerRole(profile.role)
    ensures side == BuyerSide <==> !IsSellerRole(profile.role)
  {
    if IsSellerRole(profile.role) then SellerSide else BuyerSide
  }

  /**
   * The appointments query: the rows of `table` whose owner column, chosen by
   * the viewer's role, holds the viewer's id. `table` is taken in the order
   * the database returns it (ascending start time); the filter keeps that
   * order.
   */
  function AppointmentsQuery(table: seq<Appointment>, profile: Profile, userId: string): (r: seq<Appointment>)
  {
    if table == [] then []
    else
      (if OwnerId(table[0], QuerySide(profile)) == userId then [table[0]] else [])
      + AppointmentsQuery(table[1..], profile, userId)
  }

  /**
   * A seller sees exactly the rows they sell; anyone else exactly the rows
   * they bought. Each such row appears as often as it does in the table.
   */
  lemma {:induction false} QueryMembers(table: seq<Appointment>, profile: Profile, userId: string, apt: Appointment)
    ensures multiset(AppointmentsQuery(table, profile, userId))[apt] ==
              if (if IsSellerRole(profile.role) then apt.sellerId == userId else apt.buyerId == userId)
              then multiset(table)[apt] else 0
    ensures apt in AppointmentsQuery(table, profile, userId) <==>
              apt in table
              && (if IsSellerRole(profile.role) then apt.sellerId == userId else apt.buyerId == userId)
  {
    if table != [] {
      QueryMembers(table[1..], profile, userId, apt);
      var head := if OwnerId(table[0], QuerySide(profile)) == userId then [table[0]] else [];
      assert AppointmentsQuery(table, profile, userId) == head + AppointmentsQuery(table[1..], profile, userId);
      assert table == [table[0]] + table[1..];
      assert multiset(table) == multiset([table[0]]) + multiset(table[1..]);
    }
  }

  /** The query keeps the database's order: a subsequence of the table. */
  lemma {:induction false} QueryKeepsOrder(table: seq<Appointment>, profile: Profile, userId: string)
    ensures Subsequence(AppointmentsQuery(table, profile, userId), table)
  {
    if table != [] {
      QueryKeepsOrder(table[1..], profile, userId);
      var rest := AppointmentsQuery(table[1..], profile, userId);
      if OwnerId(table[0], QuerySide(profile)) != userId {
        assert AppointmentsQuery(table, profile, userId) == rest;
        SubsequenceOfTail(rest, table);
      } else {
        assert AppointmentsQuery(table, profile, userId)[1..] == rest;
      }
    }
  }

  // ---------------------------------------------------------------------
  // Upcoming and past
  // ---------------------------------------------------------------------

  /** `appointments.filter(apt => start_time > now)`. */
  function After(s: seq<Appointment>, now: int): seq<Appointment>
  {
    if s == [] then []
    else (if s[0].startTime > now then [s[0]] else []) + After(s[1..], now)
  }

  /** `appointments.filter(apt => start_time <= now)`. */
  function NotAfter(s: seq<Appointment>, now: int): seq<Appointment>
  {
    if s == [] then []
    else (if s[0].startTime <= now then [s[0]] else []) + NotAfter(s[1..], now)
  }

  /** `appointments?.filter(...) || []`: a failed query shows no upcoming appointment. */
  function Upcoming(data: Option<seq<Appointment>>, now: int): seq<Appointment>
  {
    match data
    case None => []
    case Some(s) => After(s, now)
  }

  /** The past list, with the same fallback. */
  function Past(data: Option<seq<Appointment>>, now: int): seq<Appointment>
  {
    match data
    case None => []
    case Some(s) => NotAfter(s, now)
  }

  lemma {:induction false} AfterMembers(s: seq<Appointment>, now: int, apt: Appointment)
    ensures apt in After(s, now) <==> apt in s && apt.startTime > now
  {
    if s != [] {
      AfterMembers(s[1..], now, apt);
      assert s == [s[0]] + s[1..];
    }
  }

  lemma {:induction false} NotAfterMembers(s: seq<Appointment>, now: int, apt: Appointment)
    ensures apt in NotAfter(s, now) <==> apt in s && apt.startTime <= now
  {
    if s != [] {
      NotAfterMembers(s[1..], now, apt);
      assert s == [s[0]] + s[1..];
    }
  }

  /** An appointment is upcoming iff it starts strictly after `now`, and past iff it starts at or before `now`. */
  lemma PartitionMembers(data: Option<seq<Appointment>>, now: int, apt: Appointment)
    ensures apt in Upcoming(data, now) <==> data.Some? && apt in data.value && apt.startTime > now
    ensures apt in Past(data, now) <==> data.Some? && apt in data.value && apt.startTime <= now
  {
    if data.Some? {
      AfterMembers(data.value, now, apt);
      NotAfterMembers(data.value, now, apt);
    }
  }

  /**
   * Every appointment lands in exactly one of the two lists: together they
   * hold each row as often as the query returned it, so the counts add up.
   */
  lemma PartitionIsExact(s: seq<Appointment>, now: int)
    ensures multiset(Upcoming(Some(s), now)) + multiset(Past(Some(s), now)) == multiset(s)
    ensures |Upcoming(Some(s), now)| + |Past(Some(s), now)| == |s|
  {
    SplitMultiset(s, now);
    assert Upcoming(Some(s), now) == After(s, now);
    assert Past(Some(s), now) == NotAfter(s, now);
    assert |multiset(After(s, now))| == |After(s, now)|;
    assert |multiset(NotAfter(s, now))| == |NotAfter(s, now)|;
    assert |multiset(After(s, now)) + multiset(NotAfter(s, now))|
        == |multiset(After(s, now))| + |multiset(NotAfter(s, now))|;
    assert |multiset(s)| == |s|;
  }

  lemma {:induction false} SplitMultiset(s: seq<Appointment>, now: int)
    ensures multiset(After(s, now)) + multiset(NotAfter(s, now)) == multiset(s)
  {
    if s != [] {
      SplitMultiset(s[1..], now);
      var head := [s[0]];
      assert multiset(s) == multiset(head) + multiset(s[1..]) by {
        assert s == head + s[1..];
      }
      if s[0].startTime > now {
        assert After(s, now) == head + After(s[1..], now);
        assert NotAfter(s, now) == NotAfter(s[1..], now);
      } else {
        assert After(s, now) == After(s[1..], now);
        assert NotAfter(s, now) == head + NotAfter(s[1..], now);
      }
    }
  }

  /** Starts in non-decreasing order, the order in which the query returns rows. */
  ghost predicate SortedByStart(s: seq<Appointment>)
  {
    forall i, j :: 0 <= i < j < |s| ==> s[i].startTime <= s[j].startTime
  }

  /** `a` is `b` with some elements removed, the rest in their original order. */
  ghost predicate Subsequence<T>(a: seq<T>, b: seq<T>)
    decreases |b|
  {
    a == [] || (b != [] && if a[0] == b[0] then Subsequence(a[1..], b[1..]) else Subsequence(a, b[1..]))
  }

  lemma {:induction false} SubsequenceOfTail<T>(a: seq<T>, b: seq<T>)
    requires b != [] && Subsequence(a, b[1..])
    ensures Subsequence(a, b)
    decreases |b|, 0
  {
    if a != [] && a[0] == b[0] {
      // a[0] matched later in b; matching it here instead leaves a[1..] in b[1..]
      SubsequenceDropHead(a, b[1..]);
    }
  }

  lemma {:induction false} SubsequenceDropHead<T>(a: seq<T>, b: seq<T>)
    requires a != [] && Subsequence(a, b)
    ensures Subsequence(a[1..], b)
    decreases |b|, 1
  {
    if a[0] == b[0] {
      if a[1..] != [] {
        SubsequenceOfTail(a[1..], b);
      }
    } else {
      SubsequenceDropHead(a, b[1..]);
      SubsequenceOfTail(a[1..], b);
    }
  }

  lemma {:induction false} AfterKeepsOrder(s: seq<Appointment>, now: int)
    ensures Subsequence(After(s, now), s)
  {
    if s != [] {
      AfterKeepsOrder(s[1..], now);
      if s[0].startTime <= now {
        assert After(s, now) == After(s[1..], now);
        SubsequenceOfTail(After(s[1..], now), s);
      } else {
        assert After(s, now)[1..] == After(s[1..], now);
      }
    }
  }

  lemma {:induction false} NotAfterKeepsOrder(s: seq<Appointment>, now: int)
    ensures Subsequence(NotAfter(s, now), s)
  {
    if s != [] {
      NotAfterKeepsOrder(s[1..], now);
      if s[0].startTime > now {
        assert NotAfter(s, now) == NotAfter(s[1..], now);
        SubsequenceOfTail(NotAfter(s[1..], now), s);
      } else {
        assert NotAfter(s, now)[1..] == NotAfter(s[1..], now);
      }
    }
  }

  /** A subsequence of a list in start order is itself in start order. */
  lemma {:induction false} SubsequenceKeepsSorted(a: seq<Appointment>, b: seq<Appointment>)
    requires Subsequence(a, b) && SortedByStart(b)
    ensures SortedByStart(a)
    decreases |b|
  {
    if a != [] {
      if a[0] == b[0] {
        SubsequenceKeepsSorted(a[1..], b[1..]);
        SubsequenceMembers(a[1..], b[1..]);
        forall j | 0 < j < |a|
          ensures a[0].startTime <= a[j].startTime
        {
          assert a[j] == a[1..][j - 1];
          assert a[j] in b[1..];
          var k :| 0 <= k < |b[1..]| && b[1..][k] == a[j];
          assert b[k + 1] == a[j];
        }
      } else {
        SubsequenceKeepsSorted(a, b[1..]);
      }
    }
  }

  lemma {:induction false} SubsequenceMembers<T>(a: seq<T>, b: seq<T>)
    requires Subsequence(a, b)
    ensures forall x :: x in a ==> x in b
    decreases |b|
  {
    if a != [] {
      if a[0] == b[0] {
        SubsequenceMembers(a[1..], b[1..]);
        assert a == [a[0]] + a[1..];
      } else {
        SubsequenceMembers(a, b[1..]);
      }
    }
  }

  /**
   * Both lists keep the relative order of the query's rows, so each stays in
   * start order; on rows in start order the past list followed by the
   * upcoming list is the whole list again.
   */
  lemma PartitionKeepsOrder(s: seq<Appointment>, now: int)
    ensures Subsequence(Upcoming(Some(s), now), s)
    ensures Subsequence(Past(Some(s), now), s)
    ensures SortedByStart(s) ==>
              SortedByStart(Upcoming(Some(s), now)) && SortedByStart(Past(Some(s), now))
              && Past(Some(s), now) + Upcoming(Some(s), now) == s
  {
    AfterKeepsOrder(s, now);
    NotAfterKeepsOrder(s, now);
    if SortedByStart(s) {
      SubsequenceKeepsSorted(After(s, now), s);
      SubsequenceKeepsSorted(NotAfter(s, now), s);
      SortedSplits(s, now);
    }
  }

  lemma {:induction false} SortedSplits(s: seq<Appointment>, now: int)
    requires SortedByStart(s)
    ensures NotAfter(s, now) + After(s, now) == s
  {
    if s != [] {
      if s[0].startTime > now {
        AllAfter(s, now);
      } else {
        assert SortedByStart(s[1..]);
        SortedSplits(s[1..], now);
        assert NotAfter(s, now) == [s[0]] + NotAfter(s[1..], now);
        assert After(s, now) == After(s[1..], now);
        assert s == [s[0]] + s[1..];
      }
    }
  }

  /** In start order, once one row is upcoming all later rows are too. */
  lemma {:induction false} AllAfter(s: seq<Appointment>, now: int)
    requires SortedByStart(s) && s != [] && s[0].startTime > now
    ensures NotAfter(s, now) == [] && After(s, now) == s
  {
    if |s| > 1 {
      assert SortedByStart(s[1..]);
      AllAfter(s[1..], now);
    }
  }

  // ---------------------------------------------------------------------
  // The other party on a card
  // ---------------------------------------------------------------------

  /** `profile.role === "seller" ? apt.buyer : apt.seller` (both card lists). */
  function OtherParty(profile: Profile, apt: Appointment): Party
  {
    if IsSellerRole(profile.role) then apt.buyer else apt.seller
  }

  /**
   * Every card the viewer sees names the party across from the viewer: the
   * viewer's id is in the column the query filtered on, and the name shown
   * is the one joined from the opposite column.
   */
  lemma OtherPartyIsCounterpart(table: seq<Appointment>, profile: Profile, userId: string, apt: Appointment)
    requires apt in AppointmentsQuery(table, profile, userId)
    ensures OwnerId(apt, QuerySide(profile)) == userId
    ensures OtherParty(profile, apt) == PartyOn(apt, Opposite(QuerySide(profile)))
  {
    QueryMembers(table, profile, userId, apt);
  }

  /**
   * The header's Calendar Settings link and the page's seller query agree:
   * both are there for exactly the profiles whose role is "seller".
   */
  lemma CalendarSettingsIffSellerQuery(profile: Profile)
    ensures UserHeader.ShowsCalendarSettings(Some(profile)) <==> QuerySide(profile) == SellerSide
  {
  }
}
