/**
 * The records the visualizer works with and the pure parts of its data
 * service: validating the raw transaction feed into trade records, the URLs
 * it requests, and the headshot cache it fills.
 */
module MlbApi {
  import opened Wrappers
  import opened JsText
  import Seqs

  /** A club as the roster lists it. */
  datatype Team = Team(id: int, name: string, abbreviation: string, logo: string)

  /**
   * A trade record. `date` is the ISO date already read as a timestamp; the
   * optional fields are those TypeScript marks with `?`.
   */
  datatype Transaction = Transaction(
    id: string,
    date: int,
    description: string,
    fromTeam: Option<string>,
    toTeam: Option<string>,
    playerId: Option<string>,
    playerName: Option<string>,
    headshotUrl: Option<string>)

  /** The parts of the remote feed the parser reads; absent fields are `None`. */
  datatype RawTeam = RawTeam(id: int, name: Option<string>)
  datatype RawPerson = RawPerson(id: nat, fullName: Option<string>)
  datatype RawTransaction = RawTransaction(
    id: nat,
    date: int,
    typeCode: Option<string>,
    description: Option<string>,
    fromTeam: Option<RawTeam>,
    toTeam: Option<RawTeam>,
    person: Option<RawPerson>)
  datatype RawResponse = RawResponse(transactions: Option<seq<RawTransaction>>)

  const BaseUrl: string := "https://statsapi.mlb.com/api/v1"
  const HeadshotPrefix: string := "https://midfield.mlbstatic.com/v1/people/"
  const HeadshotSuffix: string := "/spots/120"

  /** The 30 major-league club ids. */
  const MlbTeamIds: seq<int> := [108, 109, 110, 111, 112, 113, 114, 115, 116, 117,
                                 118, 119, 120, 121, 133, 134, 135, 136, 137, 138,
                                 139, 140, 141, 142, 143, 144, 145, 146, 147, 158]

  // ---------------------------------------------------------------- URLs

  /** The transactions endpoint for a date range. */
  function TransactionsUrl(startDate: string, endDate: string): (u: string)
    ensures var head := BaseUrl + "/transactions?startDate=";
            && |u| == |head| + |startDate| + |"&endDate="| + |endDate|
            && u[..|head|] == head
            && u[|head|..|head| + |startDate|] == startDate
            && u[|head| + |startDate|..|u| - |endDate|] == "&endDate="
            && u[|u| - |endDate|..] == endDate
  {
    BaseUrl + "/transactions?startDate=" + startDate + "&endDate=" + endDate
  }

  /** A player's headshot image. */
  function PlayerHeadshot(personId: string): (u: string)
    ensures |u| == |HeadshotPrefix| + |personId| + |HeadshotSuffix|
    ensures u[..|HeadshotPrefix|] == HeadshotPrefix
    ensures u[|HeadshotPrefix|..|u| - |HeadshotSuffix|] == personId
    ensures u[|u| - |HeadshotSuffix|..] == HeadshotSuffix
  {
    HeadshotPrefix + personId + HeadshotSuffix
  }

  /** The same image under its other name. */
  function Spot(personId: string): (u: string)
    ensures u == PlayerHeadshot(personId)
  {
    HeadshotPrefix + personId + HeadshotSuffix
  }

  /** Different players get different headshot URLs. */
  lemma PlayerHeadshotInjective(a: string, b: string)
    requires PlayerHeadshot(a) == PlayerHeadshot(b)
    ensures a == b
  {
    var u := PlayerHeadshot(a);
    assert a == u[|HeadshotPrefix|..|u| - |HeadshotSuffix|] == b;
  }

  // ---------------------------------------------------------------- parsing

  predicate IsMlbClub(id: int) {
    id in MlbTeamIds
  }

  /** The filter of `parseTransactions`: a trade between two distinct clubs, one of them major-league. */
  predicate IsTrade(r: RawTransaction) {
    && r.typeCode == Some("TR")
    && r.fromTeam.Some? && r.toTeam.Some? && r.person.Some?
    && r.fromTeam.value.id != r.toTeam.value.id
    && (IsMlbClub(r.fromTeam.value.id) || IsMlbClub(r.toTeam.value.id))
  }

  /** `"<transaction id>-<person id>"`. */
  function TradeId(transactionId: nat, personId: nat): string {
    Decimal(transactionId) + "-" + Decimal(personId)
  }

  /** Distinct (transaction, player) pairs get distinct ids. */
  lemma TradeIdInjective(t1: nat, p1: nat, t2: nat, p2: nat)
    requires TradeId(t1, p1) == TradeId(t2, p2)
    ensures t1 == t2 && p1 == p2
  {
    SplitAtSeparator(Decimal(t1), Decimal(p1), Decimal(t2), Decimal(p2), '-');
    DecimalInjective(t1, t2);
    DecimalInjective(p1, p2);
  }

  /** The record `parseTransactions` builds from an accepted raw trade. */
  function ToTransaction(r: RawTransaction): (t: Transaction)
    requires IsTrade(r)
    ensures t.id == TradeId(r.id, r.person.value.id)
    ensures t.date == r.date
    ensures t.description == Or(r.description, Interpolate(r.person.value.fullName) + " traded")
    ensures t.fromTeam == r.fromTeam.value.name && t.toTeam == r.toTeam.value.name
    ensures t.playerId == Some(Decimal(r.person.value.id)) && Truthy(t.playerId)
    ensures t.playerName == r.person.value.fullName
    ensures t.headshotUrl.None?
    ensures t.description != ""
  {
    var p := r.person.value;
    Transaction(
      TradeId(r.id, p.id),
      r.date,
      Or(r.description, Interpolate(p.fullName) + " traded"),
      r.fromTeam.value.name,
      r.toTeam.value.name,
      Some(Decimal(p.id)),
      p.fullName,
      None)
  }

  /** The list `parseTransactions` returns for a feed's transaction array. */
  function Parsed(rs: seq<RawTransaction>): (ts: seq<Transaction>)
    ensures |ts| <= |rs|
    decreases |rs|
  {
    if |rs| == 0 then []
    else if IsTrade(rs[0]) then [ToTransaction(rs[0])] + Parsed(rs[1..])
    else Parsed(rs[1..])
  }

  /** Appending a raw record appends its conversion when it is a trade. */
  lemma {:induction false} ParsedSnoc(rs: seq<RawTransaction>, r: RawTransaction)
    ensures Parsed(rs + [r]) == Parsed(rs) + (if IsTrade(r) then [ToTransaction(r)] else [])
    decreases |rs|
  {
    if |rs| > 0 {
      assert (rs + [r])[1..] == rs[1..] + [r];
      ParsedSnoc(rs[1..], r);
    } else {
      assert rs + [r] == [r];
    }
  }

  /**
   * The parsed list is the trades of the feed, converted, in feed order: the
   * order-preserving subsequence `Seqs.Filter` keeps, mapped one to one.
   */
  lemma {:induction false} ParsedIsFilteredTrades(rs: seq<RawTransaction>)
    ensures var kept := Seqs.Filter(rs, IsTrade);
            && |Parsed(rs)| == |kept|
            && forall k :: 0 <= k < |kept| ==> IsTrade(kept[k]) && Parsed(rs)[k] == ToTransaction(kept[k])
    decreases |rs|
  {
    if |rs| > 0 {
      ParsedIsFilteredTrades(rs[1..]);
      if IsTrade(rs[0]) {
        ConvertedCons(rs[0], Seqs.Filter(rs[1..], IsTrade), Parsed(rs[1..]));
      } else {
        assert Seqs.Filter(rs, IsTrade) == Seqs.Filter(rs[1..], IsTrade) && Parsed(rs) == Parsed(rs[1..]);
      }
    }
  }

  /** A trade in front of the feed puts its conversion in front of the converted rest. */
  lemma ConvertedCons(r: RawTransaction, kept: seq<RawTransaction>, parsed: seq<Transaction>)
    requires IsTrade(r) && |parsed| == |kept|
    requires forall k :: 0 <= k < |kept| ==> IsTrade(kept[k]) && parsed[k] == ToTransaction(kept[k])
    ensures forall k :: 0 <= k < |kept| + 1 ==>
              IsTrade(([r] + kept)[k]) && ([ToTransaction(r)] + parsed)[k] == ToTransaction(([r] + kept)[k])
  {
    forall k | 0 <= k < |kept| + 1
      ensures IsTrade(([r] + kept)[k]) && ([ToTransaction(r)] + parsed)[k] == ToTransaction(([r] + kept)[k])
    {
      if k > 0 {
        ConsShift(r, kept, k);
        ConsShift(ToTransaction(r), parsed, k);
      }
    }
  }

  /** Past the head, a cons is its tail shifted by one. */
  lemma ConsShift<T>(x: T, s: seq<T>, k: int)
    requires 0 < k <= |s|
    ensures ([x] + s)[k] == s[k - 1]
  {
  }

  /** Every trade of the feed is in the parsed list, and nothing else is. */
  lemma {:induction false} ParsedMembers(rs: seq<RawTransaction>)
    ensures forall t :: t in Parsed(rs) ==> exists r :: r in rs && IsTrade(r) && t == ToTransaction(r)
    ensures forall r :: r in rs && IsTrade(r) ==> ToTransaction(r) in Parsed(rs)
    decreases |rs|
  {
    if |rs| > 0 {
      ParsedMembers(rs[1..]);
      assert forall r :: r in rs ==> r == rs[0] || r in rs[1..];
    }
  }

  /** A feed of non-trades parses to nothing. */
  lemma {:induction false} ParsedNoTrades(rs: seq<RawTransaction>)
    requires forall r :: r in rs ==> !IsTrade(r)
    ensures Parsed(rs) == []
    decreases |rs|
  {
    if |rs| > 0 {
      ParsedNoTrades(rs[1..]);
    }
  }

  // ---------------------------------------------------------------- headshots

  /** `transactions.filter(t => t.playerId).map(t => t.playerId!)`. */
  function PlayerIds(ts: seq<Transaction>): (ids: seq<string>)
    ensures forall id :: id in ids <==> exists t :: t in ts && Truthy(t.playerId) && t.playerId.value == id
    ensures forall id :: id in ids ==> id != ""
    decreases |ts|
  {
    if |ts| == 0 then []
    else (if Truthy(ts[0].playerId) then [ts[0].playerId.value] else []) + PlayerIds(ts[1..])
  }

  /** `[...new Set(ids)]`: first occurrences, in order of first occurrence. */
  function Dedup(ids: seq<string>): (r: seq<string>)
    ensures forall i, j :: 0 <= i < j < |r| ==> r[i] != r[j]
    ensures forall x :: x in r <==> x in ids
    ensures Seqs.IsSubsequence(r, ids)
    ensures forall i, j, k :: 0 <= i < j < |r| && 0 <= k < |ids| && ids[k] == r[j] ==> r[i] in ids[..k]
    decreases |ids|
  {
    if |ids| == 0 then []
    else
      var front := ids[..|ids| - 1];
      var init := Dedup(front);
      var last := ids[|ids| - 1];
      SubsequenceSnoc(init, front, last);
      assert ids == front + [last];
      FirstOrderSnoc(front, last, init);
      if last in init then init else init + [last]
  }

  /** Adding one more id keeps the deduplicated ids in order of first occurrence. */
  lemma FirstOrderSnoc(front: seq<string>, last: string, init: seq<string>)
    requires forall x :: x in init <==> x in front
    requires forall i, j, k :: 0 <= i < j < |init| && 0 <= k < |front| && front[k] == init[j] ==> init[i] in front[..k]
    ensures var ids, r := front + [last], if last in init then init else init + [last];
            forall i, j, k :: 0 <= i < j < |r| && 0 <= k < |ids| && ids[k] == r[j] ==> r[i] in ids[..k]
  {
    var ids, r := front + [last], if last in init then init else init + [last];
    forall i, j, k | 0 <= i < j < |r| && 0 <= k < |ids| && ids[k] == r[j]
      ensures r[i] in ids[..k]
    {
      if k < |ids| - 1 {
        assert front[..k] == ids[..k];
        assert front[k] == ids[k];
      } else {
        assert ids[..k] == front;
        assert r[i] == init[i];
      }
    }
  }

  /** `r` stays a subsequence of `s` when both, or only `s`, grow by one element. */
  lemma {:induction false} SubsequenceSnoc<T>(r: seq<T>, s: seq<T>, x: T)
    requires Seqs.IsSubsequence(r, s)
    ensures Seqs.IsSubsequence(r, s + [x]) && Seqs.IsSubsequence(r + [x], s + [x])
    decreases |s|
  {
    if |s| == 0 {
      assert |r| == 0;
      assert (r + [x])[1..] == r && (s + [x])[1..] == s;
    } else {
      assert (s + [x])[1..] == s[1..] + [x];
      if |r| > 0 && r[0] == s[0] && Seqs.IsSubsequence(r[1..], s[1..]) {
        SubsequenceSnoc(r[1..], s[1..], x);
        assert (r + [x])[1..] == r[1..] + [x];
      } else if |r| > 0 {
        SubsequenceSnoc(r, s[1..], x);
      } else {
        SubsequenceSnoc(r, s[1..], x);
        assert r + [x] == [x];
      }
    }
  }

  /** The ids `preloadPlayerHeadshots` probes: each truthy player id once. */
  function UniquePlayerIds(ts: seq<Transaction>): (ids: seq<string>)
    ensures forall i, j :: 0 <= i < j < |ids| ==> ids[i] != ids[j]
    ensures forall id :: id in ids <==> exists t :: t in ts && Truthy(t.playerId) && t.playerId.value == id
  {
    Dedup(PlayerIds(ts))
  }

  /** What a probe stores: the URL when it answered, the empty string when it failed. */
  function ProbeResult(playerId: string, reachable: bool): string {
    if reachable then PlayerHeadshot(playerId) else ""
  }

  /** The `headshotUrl` given to one transaction from a cache. */
  function HeadshotFor(playerId: Option<string>, cache: map<string, string>): Option<string> {
    if Truthy(playerId) then
      Some(if playerId.value in cache then Or(Some(cache[playerId.value]), "") else "")
    else None
  }

  /** Copies every transaction, setting only its `headshotUrl` from the cache. */
  function AttachHeadshots(ts: seq<Transaction>, cache: map<string, string>): (r: seq<Transaction>)
    ensures |r| == |ts|
    ensures forall i :: 0 <= i < |ts| ==> r[i].(headshotUrl := ts[i].headshotUrl) == ts[i]
    ensures forall i :: 0 <= i < |ts| ==> (r[i].headshotUrl.Some? <==> Truthy(ts[i].playerId))
    ensures forall i :: 0 <= i < |ts| && Truthy(ts[i].playerId) ==>
              r[i].headshotUrl.value == (if ts[i].playerId.value in cache then cache[ts[i].playerId.value] else "")
  {
    seq(|ts|, i requires 0 <= i < |ts| => ts[i].(headshotUrl := HeadshotFor(ts[i].playerId, cache)))
  }

  /** Probing one more id of a list stores that id's outcome over the earlier probes. */
  lemma ProbeNext(cache: map<string, string>, ids: seq<string>, i: int, reachable: string -> bool)
    requires 0 <= i < |ids|
    ensures WithProbes(cache, ids[..i + 1], reachable)
         == WithProbes(cache, ids[..i], reachable)[ids[i] := ProbeResult(ids[i], reachable(ids[i]))]
  {
    assert ids[..i + 1][..i] == ids[..i];
  }

  /** The cache after probing `ids` in order, each probe storing its outcome. */
  function WithProbes(cache: map<string, string>, ids: seq<string>, reachable: string -> bool)
    : (r: map<string, string>)
    ensures r.Keys == cache.Keys + set id | id in ids
    decreases |ids|
  {
    if |ids| == 0 then cache
    else
      var last := ids[|ids| - 1];
      WithProbes(cache, ids[..|ids| - 1], reachable)[last := ProbeResult(last, reachable(last))]
  }

  /** Each probed id holds its own probe's outcome; every other entry is kept. */
  lemma {:induction false} WithProbesValues(cache: map<string, string>, ids: seq<string>,
                                            reachable: string -> bool, id: string)
    ensures id in ids ==> WithProbes(cache, ids, reachable)[id] == ProbeResult(id, reachable(id))
    ensures id !in ids && id in cache ==> WithProbes(cache, ids, reachable)[id] == cache[id]
    decreases |ids|
  {
    if |ids| > 0 {
      var init := ids[..|ids| - 1];
      WithProbesValues(cache, init, reachable, id);
      assert ids == init + [ids[|ids| - 1]];
    }
  }

  /**
   * After preloading, every transaction with a player id carries that
   * player's probe outcome: the headshot URL, or "" when the probe failed.
   */
  lemma PreloadAttachesProbes(cache: map<string, string>, ts: seq<Transaction>,
                              reachable: string -> bool, i: int)
    requires 0 <= i < |ts| && Truthy(ts[i].playerId)
    ensures var id := ts[i].playerId.value;
            AttachHeadshots(ts, WithProbes(cache, UniquePlayerIds(ts), reachable))[i].headshotUrl
              == Some(ProbeResult(id, reachable(id)))
  {
    var id := ts[i].playerId.value;
    assert ts[i] in ts;
    WithProbesValues(cache, UniquePlayerIds(ts), reachable, id);
  }

  /** The service object; its only state is the headshot cache. */
  class MLBApi {
    var headshotCache: map<string, string>

    constructor ()
      ensures headshotCache == map[]
    {
      headshotCache := map[];
    }

    /** `getCachedHeadshot`. */
    function GetCachedHeadshot(playerId: string): (r: Option<string>)
      reads this
      ensures r.Some? <==> playerId in headshotCache
      ensures r.Some? ==> r.value == headshotCache[playerId]
    {
      if playerId in headshotCache then Some(headshotCache[playerId]) else None
    }

    /** `parseTransactions`: walks the feed, pushing each accepted trade. */
    method ParseTransactions(data: RawResponse) returns (ts: seq<Transaction>)
      ensures data.transactions.None? ==> ts == []
      ensures data.transactions.Some? ==> ts == Parsed(data.transactions.value)
    {
      ts := [];
      if data.transactions.Some? {
        var rs := data.transactions.value;
        var i := 0;
        while i < |rs|
          invariant 0 <= i <= |rs|
          invariant ts == Parsed(rs[..i])
        {
          var r := rs[i];
          ParsedSnoc(rs[..i], r);
          assert rs[..i + 1] == rs[..i] + [r];
          if IsTrade(r) {
            var t := ToTransaction(r);
            ts := ts + [t];
          }
          i := i + 1;
        }
        assert rs[..i] == rs;
      }
    }

    /**
     * `preloadPlayerHeadshots`, with the outcome of each HEAD request given by
     * `reachable`: every unique player id is probed and its result cached,
     * then every transaction receives its headshot from the cache.
     */
    method PreloadPlayerHeadshots(ts: seq<Transaction>, reachable: string -> bool)
      returns (r: seq<Transaction>)
      modifies this
      ensures headshotCache == WithProbes(old(headshotCache), UniquePlayerIds(ts), reachable)
      ensures r == AttachHeadshots(ts, headshotCache)
    {
      var ids := UniquePlayerIds(ts);
      var i := 0;
      while i < |ids|
        invariant 0 <= i <= |ids|
        invariant headshotCache == WithProbes(old(headshotCache), ids[..i], reachable)
      {
        ProbeNext(old(headshotCache), ids, i, reachable);
        headshotCache := headshotCache[ids[i] := ProbeResult(ids[i], reachable(ids[i]))];
        i := i + 1;
      }
      assert ids[..i] == ids;
      r := AttachHeadshots(ts, headshotCache);
    }
  }
}
