// The RPC server's own logic, apart from transport and locking: merging peer
// sanctions, bounds on AOCL leaf lookups, confirmations of the balance,
// ordering of the balance history, clearing standings by IP and amount
// validation.
module RpcServer {
  import opened Primitives
  import opened Wrappers
  import opened GlobalState
  import NeptuneCli

  // ---------------------------------------------------------------------
  // Peer sanctions

  type IpAddr = nat
  datatype SocketAddr = SocketAddr(ip: IpAddr, port: nat)

  /** A peer's standing; the fields beyond the score are not part of this model. */
  datatype PeerStanding = PeerStanding(standing: int)
  {
    predicate IsNegative() { standing < 0 }
  }

  datatype PeerInfo = PeerInfo(standing: PeerStanding)

  /** A connected peer, as an entry of the peer map. */
  datatype Peer = Peer(socket: SocketAddr, info: PeerInfo)

  /** The IPs of connected peers with negative standing, each mapped to the standing of the last such peer met. */
  function InMemorySanctions(peers: seq<Peer>): (m: map<IpAddr, PeerStanding>)
    ensures forall ip :: ip in m ==> m[ip].IsNegative()
  {
    if |peers| == 0 then map[]
    else
      var m := InMemorySanctions(peers[..|peers| - 1]);
      var p := peers[|peers| - 1];
      if p.info.standing.IsNegative() then m[p.socket.ip := p.info.standing] else m
  }

  /** Database sanctions added with `entry(ip).or_insert(..)`: only for IPs not yet present. */
  function MergeDatabase(acc: map<IpAddr, PeerStanding>, db: seq<(IpAddr, PeerStanding)>): map<IpAddr, PeerStanding>
    decreases |db|
  {
    if |db| == 0 then acc
    else MergeDatabase(if db[0].0 in acc then acc else acc[db[0].0 := db[0].1], db[1..])
  }

  function AllSanctions(peers: seq<Peer>, db: seq<(IpAddr, PeerStanding)>): map<IpAddr, PeerStanding>
  {
    MergeDatabase(InMemorySanctions(peers), db)
  }

  predicate SanctionedInMemory(peers: seq<Peer>, ip: IpAddr)
  {
    exists i :: 0 <= i < |peers| && peers[i].socket.ip == ip && peers[i].info.standing.IsNegative()
  }

  /**
   * `all_sanctioned_peers`: first the connected peers with negative standing,
   * then the database sanctions for IPs not already present. The peer map and
   * the database are given in their iteration order.
   */
  method AllSanctionedPeers(peers: seq<Peer>, db: seq<(IpAddr, PeerStanding)>) returns (all: map<IpAddr, PeerStanding>)
    ensures all == AllSanctions(peers, db)
  {
    var inMemory: map<IpAddr, PeerStanding> := map[];
    for i := 0 to |peers|
      invariant inMemory == InMemorySanctions(peers[..i])
    {
      assert peers[..i + 1][..i] == peers[..i];
      if peers[i].info.standing.IsNegative() {
        inMemory := inMemory[peers[i].socket.ip := peers[i].info.standing];
      }
    }
    assert peers[..|peers|] == peers;
    all := inMemory;
    for j := 0 to |db|
      invariant MergeDatabase(all, db[j..]) == MergeDatabase(inMemory, db)
    {
      assert db[j..][1..] == db[j + 1..];
      if db[j].0 !in all {
        all := all[db[j].0 := db[j].1];
      }
    }
  }

  /** The connected peers' part holds exactly the IPs of negatively standing peers, with the last such peer's standing. */
  lemma InMemorySanctionsAreLastNegative(peers: seq<Peer>, ip: IpAddr)
    ensures ip in InMemorySanctions(peers) <==> SanctionedInMemory(peers, ip)
    ensures ip in InMemorySanctions(peers) ==>
              exists i :: 0 <= i < |peers| && peers[i].socket.ip == ip && peers[i].info.standing == InMemorySanctions(peers)[ip]
                && forall k :: i < k < |peers| ==> !(peers[k].socket.ip == ip && peers[k].info.standing.IsNegative())
  {
    InMemorySanctionsDomain(peers, ip);
    InMemorySanctionsLastStanding(peers, ip);
  }

  /** An IP is in the connected peers' part exactly when some peer at it stands negatively. */
  lemma {:induction false} InMemorySanctionsDomain(peers: seq<Peer>, ip: IpAddr)
    ensures ip in InMemorySanctions(peers) <==> SanctionedInMemory(peers, ip)
  {
    if |peers| > 0 {
      var init := peers[..|peers| - 1];
      InMemorySanctionsDomain(init, ip);
      var p := peers[|peers| - 1];
      if SanctionedInMemory(init, ip) {
        var i :| 0 <= i < |init| && init[i].socket.ip == ip && init[i].info.standing.IsNegative();
        assert peers[i] == init[i];
      }
      if SanctionedInMemory(peers, ip) && !(p.socket.ip == ip && p.info.standing.IsNegative()) {
        var i :| 0 <= i < |peers| && peers[i].socket.ip == ip && peers[i].info.standing.IsNegative();
        assert init[i] == peers[i];
      }
    }
  }

  /** The standing kept for an IP is that of the last negatively standing peer at it. */
  lemma {:induction false} InMemorySanctionsLastStanding(peers: seq<Peer>, ip: IpAddr)
    ensures ip in InMemorySanctions(peers) ==>
              exists i :: 0 <= i < |peers| && peers[i].socket.ip == ip && peers[i].info.standing == InMemorySanctions(peers)[ip]
                && forall k :: i < k < |peers| ==> !(peers[k].socket.ip == ip && peers[k].info.standing.IsNegative())
  {
    if |peers| > 0 {
      var init := peers[..|peers| - 1];
      InMemorySanctionsLastStanding(init, ip);
      var p := peers[|peers| - 1];
      if p.socket.ip == ip && p.info.standing.IsNegative() {
        assert peers[|peers| - 1].info.standing == InMemorySanctions(peers)[ip];
      } else if ip in InMemorySanctions(peers) {
        var i :| 0 <= i < |init| && init[i].socket.ip == ip && init[i].info.standing == InMemorySanctions(init)[ip]
                 && forall k :: i < k < |init| ==> !(init[k].socket.ip == ip && init[k].info.standing.IsNegative());
        assert peers[i] == init[i];
        assert forall k :: i < k < |peers| - 1 ==> peers[k] == init[k];
      }
    }
  }

  /** Merging the database keeps every entry already present and adds the first database standing of each absent IP. */
  lemma {:induction false} MergeDatabaseKeepsPresent(acc: map<IpAddr, PeerStanding>, db: seq<(IpAddr, PeerStanding)>, ip: IpAddr)
    ensures ip in acc ==> ip in MergeDatabase(acc, db) && MergeDatabase(acc, db)[ip] == acc[ip]
    ensures ip !in acc ==> (ip in MergeDatabase(acc, db) <==> exists j :: 0 <= j < |db| && db[j].0 == ip)
    ensures ip !in acc ==> forall j :: 0 <= j < |db| && db[j].0 == ip && (forall k :: 0 <= k < j ==> db[k].0 != ip) ==>
              MergeDatabase(acc, db)[ip] == db[j].1
    decreases |db|
  {
    if |db| > 0 {
      var next := if db[0].0 in acc then acc else acc[db[0].0 := db[0].1];
      MergeDatabaseKeepsPresent(next, db[1..], ip);
      if ip !in acc && db[0].0 != ip {
        assert forall j :: 1 <= j < |db| ==> db[j] == db[1..][j - 1];
        if exists j :: 0 <= j < |db| && db[j].0 == ip {
          var j :| 0 <= j < |db| && db[j].0 == ip;
          assert db[1..][j - 1].0 == ip;
        }
      }
    }
  }

  /**
   * The merged sanctions: an IP is present iff a connected peer with that IP
   * has negative standing or the database holds it; the connected peers'
   * standing wins, and otherwise the first database entry for the IP.
   */
  lemma AllSanctionsCharacterised(peers: seq<Peer>, db: seq<(IpAddr, PeerStanding)>, ip: IpAddr)
    ensures ip in AllSanctions(peers, db) <==>
              SanctionedInMemory(peers, ip) || exists j :: 0 <= j < |db| && db[j].0 == ip
    ensures SanctionedInMemory(peers, ip) ==>
              ip in InMemorySanctions(peers) && ip in AllSanctions(peers, db) && AllSanctions(peers, db)[ip] == InMemorySanctions(peers)[ip]
    ensures !SanctionedInMemory(peers, ip) ==>
              forall j :: 0 <= j < |db| && db[j].0 == ip && (forall k :: 0 <= k < j ==> db[k].0 != ip) ==>
                AllSanctions(peers, db)[ip] == db[j].1
  {
    InMemorySanctionsAreLastNegative(peers, ip);
    MergeDatabaseKeepsPresent(InMemorySanctions(peers), db, ip);
  }

  /** `clear_standing_by_ip`: every connected peer at that IP gets its standing cleared; the others are untouched. */
  function ClearStandingByIp(peers: seq<Peer>, ip: IpAddr, clear: PeerStanding -> PeerStanding): (r: seq<Peer>)
    ensures |r| == |peers|
    ensures forall i :: 0 <= i < |peers| ==> r[i].socket == peers[i].socket
    ensures forall i :: 0 <= i < |peers| && peers[i].socket.ip != ip ==> r[i] == peers[i]
    ensures forall i :: 0 <= i < |peers| && peers[i].socket.ip == ip ==> r[i].info.standing == clear(peers[i].info.standing)
  {
    if |peers| == 0 then []
    else
      var p := peers[0];
      var q := if p.socket.ip == ip then Peer(p.socket, PeerInfo(clear(p.info.standing))) else p;
      [q] + ClearStandingByIp(peers[1..], ip, clear)
  }

  /** When clearing leaves a standing that is not negative, the cleared IP drops out of the connected peers' sanctions and no other IP changes. */
  lemma ClearedIpNotSanctionedInMemory(peers: seq<Peer>, ip: IpAddr, clear: PeerStanding -> PeerStanding, other: IpAddr)
    requires forall s :: !clear(s).IsNegative()
    ensures ip !in InMemorySanctions(ClearStandingByIp(peers, ip, clear))
    ensures other != ip ==> (other in InMemorySanctions(ClearStandingByIp(peers, ip, clear)) <==> other in InMemorySanctions(peers))
  {
    var cleared := ClearStandingByIp(peers, ip, clear);
    InMemorySanctionsAreLastNegative(cleared, ip);
    InMemorySanctionsAreLastNegative(cleared, other);
    InMemorySanctionsAreLastNegative(peers, other);
    if other != ip {
      if SanctionedInMemory(cleared, other) {
        var i :| 0 <= i < |cleared| && cleared[i].socket.ip == other && cleared[i].info.standing.IsNegative();
        assert peers[i].socket.ip == other;
      }
      if SanctionedInMemory(peers, other) {
        var i :| 0 <= i < |peers| && peers[i].socket.ip == other && peers[i].info.standing.IsNegative();
        assert cleared[i] == peers[i];
      }
    }
  }

  // ---------------------------------------------------------------------
  // Leaf lookup, confirmations, amount validation

  /** `utxo_digest`: a leaf is returned only for an index strictly between 0 and the AOCL leaf count. */
  function UtxoDigest(leafIndex: nat, leafCount: nat, getLeaf: nat -> Digest): (r: Option<Digest>)
    ensures r.Some? <==> 0 < leafIndex < leafCount
    ensures r.Some? ==> r.value == getLeaf(leafIndex)
  {
    if leafIndex > 0 && leafIndex < leafCount then Some(getLeaf(leafIndex)) else None
  }

  /** The first AOCL leaf, index 0, is never returned, even when the AOCL holds it. */
  lemma UtxoDigestSkipsLeafZero(leafCount: nat, getLeaf: nat -> Digest)
    ensures UtxoDigest(0, leafCount, getLeaf).None?
    ensures leafCount >= 2 ==> UtxoDigest(leafCount - 1, leafCount, getLeaf) == Some(getLeaf(leafCount - 1))
  {
  }

  /**
   * `confirmations_internal`: the tip height minus the latest balance
   * height, or `None` when there is no balance height. The code asserts that
   * the tip is not below the balance height.
   */
  function Confirmations(latestBalanceHeight: Option<BlockHeight>, tipHeight: BlockHeight): (r: Option<nat>)
    requires latestBalanceHeight.Some? ==> tipHeight >= latestBalanceHeight.value
    ensures r.None? <==> latestBalanceHeight.None?
    ensures r.Some? ==> latestBalanceHeight.value + r.value == tipHeight
  {
    match latestBalanceHeight
    case None => None
    case Some(h) => Some(tipHeight - h)
  }

  /** With no monitored UTXOs there are no confirmations; a UTXO confirmed at the tip has zero. */
  lemma ConfirmationsOfWallet(s: seq<MonitoredUtxo>, tip: Digest, tipHeight: BlockHeight)
    requires LatestBalanceHeight(s, tip).Some? ==> tipHeight >= LatestBalanceHeight(s, tip).value
    ensures |s| == 0 ==> Confirmations(LatestBalanceHeight(s, tip), tipHeight).None?
    ensures LatestBalanceHeight(s, tip) == Some(tipHeight) ==> Confirmations(LatestBalanceHeight(s, tip), tipHeight) == Some(0)
  {
  }

  /** `validate_amount`: the parsed amount, or `None` when the text does not parse. */
  function ValidateAmount(parseAmount: NeptuneCli.AmountParser, amountText: NeptuneCli.String): (r: Option<int>)
    ensures r.None? <==> parseAmount(amountText).None?
    ensures r.Some? ==> parseAmount(amountText) == Some(r.value)
  {
    match parseAmount(amountText)
    case None => None
    case Some(amount) => Some(amount)
  }

  /** An amount the server validates is the amount the command line would read from the same text in an output. */
  lemma ValidateAmountAgreesWithCli(parseAmount: NeptuneCli.AmountParser, address: NeptuneCli.String, amountText: NeptuneCli.String)
    requires ':' !in address && ':' !in amountText
    ensures ValidateAmount(parseAmount, amountText).Some? <==> NeptuneCli.FromStr(parseAmount, address + ":" + amountText).Ok?
    ensures ValidateAmount(parseAmount, amountText).Some? ==>
              NeptuneCli.FromStr(parseAmount, address + ":" + amountText).value.amount == ValidateAmount(parseAmount, amountText).value
  {
    var parts := [address, amountText];
    NeptuneCli.SplitJoin(parts, ':');
    assert NeptuneCli.Join(parts[1..], ':') == amountText;
    assert NeptuneCli.Join(parts, ':') == address + ":" + amountText;
  }

  // ---------------------------------------------------------------------
  // Balance history for display

  /** A history line as displayed: digest, height, timestamp, amount. */
  datatype DisplayEntry = DisplayEntry(block: Digest, height: BlockHeight, timestamp: nat, amount: int)

  function Reorder(e: HistoryEntry): (d: DisplayEntry)
    ensures d.block == e.block && d.height == e.height && d.timestamp == e.timestamp && d.amount == e.amount
  {
    DisplayEntry(e.block, e.height, e.timestamp, e.amount)
  }

  predicate SortedByHeight(s: seq<DisplayEntry>)
  {
    forall i, j :: 0 <= i < j < |s| ==> s[i].height <= s[j].height
  }

  /** `d` placed after every entry of height at most its own, keeping the order of the others. */
  function Insert(d: DisplayEntry, s: seq<DisplayEntry>): (r: seq<DisplayEntry>)
    ensures |r| == |s| + 1
  {
    if |s| == 0 then [d]
    else if s[0].height <= d.height then [s[0]] + Insert(d, s[1..])
    else [d] + s
  }

  /** Insertion adds `d` and loses nothing. */
  lemma {:induction false} InsertPermutes(d: DisplayEntry, s: seq<DisplayEntry>)
    ensures multiset(Insert(d, s)) == multiset(s) + multiset{d}
  {
    if |s| > 0 {
      assert s == [s[0]] + s[1..];
      if s[0].height <= d.height {
        InsertPermutes(d, s[1..]);
      }
    }
  }

  /** A stable sort by height: insertion of each entry in turn. */
  function SortByHeight(s: seq<DisplayEntry>): seq<DisplayEntry>
  {
    if |s| == 0 then [] else Insert(s[|s| - 1], SortByHeight(s[..|s| - 1]))
  }

  /**
   * `history`: each entry reordered to (digest, height, timestamp, amount),
   * then sorted by height with a stable sort.
   */
  method History(history: seq<HistoryEntry>) returns (display: seq<DisplayEntry>)
    ensures display == SortByHeight(seq(|history|, i requires 0 <= i < |history| => Reorder(history[i])))
  {
    var reordered := seq(|history|, i requires 0 <= i < |history| => Reorder(history[i]));
    display := [];
    for i := 0 to |history|
      invariant display == SortByHeight(reordered[..i])
    {
      assert reordered[..i + 1][..i] == reordered[..i];
      display := Insert(reordered[i], display);
    }
    assert reordered[..|history|] == reordered;
  }

  lemma {:induction false} InsertSorted(d: DisplayEntry, s: seq<DisplayEntry>)
    requires SortedByHeight(s)
    ensures SortedByHeight(Insert(d, s))
    ensures forall k :: 0 <= k < |Insert(d, s)| ==> Insert(d, s)[k] == d || Insert(d, s)[k] in s
  {
    if |s| > 0 && s[0].height <= d.height {
      InsertSorted(d, s[1..]);
      var r := Insert(d, s[1..]);
      forall k | 0 <= k < |r| ensures s[0].height <= r[k].height {
        if r[k] != d {
          var m :| 0 <= m < |s[1..]| && s[1..][m] == r[k];
          assert s[m + 1] == r[k];
        }
      }
    }
  }

  /** The displayed history is ordered by height and holds exactly the entries of the wallet's history. */
  lemma SortByHeightSortsAndPermutes(s: seq<DisplayEntry>)
    ensures SortedByHeight(SortByHeight(s))
    ensures multiset(SortByHeight(s)) == multiset(s)
  {
    SortByHeightSorts(s);
    SortByHeightPermutes(s);
  }

  lemma {:induction false} SortByHeightSorts(s: seq<DisplayEntry>)
    ensures SortedByHeight(SortByHeight(s))
  {
    if |s| > 0 {
      SortByHeightSorts(s[..|s| - 1]);
      InsertSorted(s[|s| - 1], SortByHeight(s[..|s| - 1]));
    }
  }

  lemma {:induction false} SortByHeightPermutes(s: seq<DisplayEntry>)
    ensures multiset(SortByHeight(s)) == multiset(s)
  {
    if |s| > 0 {
      var init, last := s[..|s| - 1], s[|s| - 1];
      SortByHeightPermutes(init);
      InsertPermutes(last, SortByHeight(init));
      assert s == init + [last];
    }
  }

  /** The entries at height `h`, in order. */
  function AtHeight(s: seq<DisplayEntry>, h: BlockHeight): seq<DisplayEntry>
  {
    if |s| == 0 then [] else (if s[0].height == h then [s[0]] else []) + AtHeight(s[1..], h)
  }

  lemma {:induction false} AtHeightAppend(s: seq<DisplayEntry>, d: DisplayEntry, h: BlockHeight)
    ensures AtHeight(s + [d], h) == AtHeight(s, h) + (if d.height == h then [d] else [])
  {
    if |s| > 0 {
      assert (s + [d])[1..] == s[1..] + [d];
      AtHeightAppend(s[1..], d, h);
      var first := if s[0].height == h then [s[0]] else [];
      var last := if d.height == h then [d] else [];
      assert first + (AtHeight(s[1..], h) + last) == (first + AtHeight(s[1..], h)) + last;
    } else {
      assert s + [d] == [d];
    }
  }

  lemma {:induction false} AtHeightAbove(s: seq<DisplayEntry>, h: BlockHeight)
    requires forall k :: 0 <= k < |s| ==> s[k].height > h
    ensures AtHeight(s, h) == []
  {
    if |s| > 0 {
      AtHeightAbove(s[1..], h);
    }
  }

  lemma {:induction false} AtHeightInsert(d: DisplayEntry, s: seq<DisplayEntry>, h: BlockHeight)
    requires SortedByHeight(s)
    ensures AtHeight(Insert(d, s), h) == AtHeight(s, h) + (if d.height == h then [d] else [])
    decreases |s|
  {
    if |s| == 0 {
      assert Insert(d, s) == [d];
    } else if s[0].height <= d.height {
      assert SortedByHeight(s[1..]);
      AtHeightInsert(d, s[1..], h);
      AtHeightInsertAfterFirst(d, s, h);
    } else {
      AtHeightInsertBeforeAll(d, s, h);
    }
  }

  /** The step of `AtHeightInsert` where `d` goes after the first entry. */
  lemma AtHeightInsertAfterFirst(d: DisplayEntry, s: seq<DisplayEntry>, h: BlockHeight)
    requires |s| > 0 && s[0].height <= d.height
    requires AtHeight(Insert(d, s[1..]), h) == AtHeight(s[1..], h) + (if d.height == h then [d] else [])
    ensures AtHeight(Insert(d, s), h) == AtHeight(s, h) + (if d.height == h then [d] else [])
  {
    var t := s[1..];
    var first := if s[0].height == h then [s[0]] else [];
    var last := if d.height == h then [d] else [];
    var r := Insert(d, s);
    assert r == [s[0]] + Insert(d, t);
    assert r[0] == s[0] && r[1..] == Insert(d, t);
    assert first + (AtHeight(t, h) + last) == (first + AtHeight(t, h)) + last;
  }

  /** The step of `AtHeightInsert` where `d` goes before every entry, all of them higher. */
  lemma AtHeightInsertBeforeAll(d: DisplayEntry, s: seq<DisplayEntry>, h: BlockHeight)
    requires SortedByHeight(s) && |s| > 0 && s[0].height > d.height
    ensures AtHeight(Insert(d, s), h) == AtHeight(s, h) + (if d.height == h then [d] else [])
  {
    var r := Insert(d, s);
    assert r == [d] + s;
    assert r[0] == d && r[1..] == s;
    if d.height == h {
      assert forall k :: 0 <= k < |s| ==> s[k].height > h by {
        assert forall k :: 0 < k < |s| ==> s[0].height <= s[k].height;
      }
      AtHeightAbove(s, h);
    }
  }

  /** The sort is stable: entries of equal height keep the order they had in the wallet's history. */
  lemma {:induction false} SortByHeightIsStable(s: seq<DisplayEntry>, h: BlockHeight)
    ensures AtHeight(SortByHeight(s), h) == AtHeight(s, h)
  {
    if |s| > 0 {
      var init, last := s[..|s| - 1], s[|s| - 1];
      SortByHeightIsStable(init, h);
      SortByHeightSorts(init);
      AtHeightInsert(last, SortByHeight(init), h);
      AtHeightAppend(init, last, h);
      assert init + [last] == s;
    }
  }
}
