/** The names an access grant generates, its ports, and its address-book index. */
module GrantNames {
  import opened Options

  const MIN_PORT := 1
  const MAX_PORT := 65535
  const BOOK_INDEX_FLOOR: nat := 1000

  function Digit(d: nat): char
    requires d < 10
  {
    "0123456789"[d]
  }

  function Decimal(n: nat): (s: string)
    ensures |s| >= 1 && forall i :: 0 <= i < |s| ==> '0' <= s[i] <= '9'
  {
    if n < 10 then [Digit(n)] else Decimal(n / 10) + [Digit(n % 10)]
  }

  function Parsed(s: string): int {
    if s == [] then 0 else 10 * Parsed(s[..|s| - 1]) + (s[|s| - 1] as int - '0' as int)
  }

  lemma {:induction false} DecimalParses(n: nat)
    ensures Parsed(Decimal(n)) == n
  {
    if n >= 10 {
      DecimalParses(n / 10);
      ParsedSnoc(Decimal(n / 10), n % 10);
    }
  }

  lemma ParsedSnoc(s: string, d: nat)
    requires d < 10
    ensures Parsed(s + [Digit(d)]) == 10 * Parsed(s) + d
  {
    assert (s + [Digit(d)])[..|s|] == s;
  }

  function RuleName(grant: string): string {
    "svc-" + grant
  }

  function VipEntryName(grant: string): string {
    RuleName(grant) + "-vip"
  }

  function ServicePrefix(grant: string): string {
    RuleName(grant) + "-tcp-"
  }

  function ServiceName(grant: string, port: nat): string {
    ServicePrefix(grant) + Decimal(port)
  }

  lemma NamesAre(grant: string, port: nat)
    ensures RuleName(grant) == "svc-" + grant && VipEntryName(grant) == "svc-" + grant + "-vip"
    ensures ServicePrefix(grant) == "svc-" + grant + "-tcp-" && ServiceName(grant, port) == "svc-" + grant + "-tcp-" + Decimal(port)
  {
  }

  /** One service name per port. */
  lemma ServiceNameInjective(grant: string, p: nat, q: nat)
    requires ServiceName(grant, p) == ServiceName(grant, q)
    ensures p == q
  {
    assert ServiceName(grant, p)[|ServicePrefix(grant)|..] == Decimal(p);
    assert ServiceName(grant, q)[|ServicePrefix(grant)|..] == Decimal(q);
    DecimalParses(p);
    DecimalParses(q);
  }

  /** Withdrawal deletes services by the prefix of their name. It reaches another grant's
      services exactly when that grant's name is this one's with `-tcp` behind it, and
      possibly more after a dash. */
  lemma ServicePrefixReaches(g: string, h: string, port: nat)
    ensures ServicePrefix(g) <= ServiceName(h, port) <==> h == g || h == g + "-tcp" || g + "-tcp-" <= h
  {
    var d := Decimal(port);
    var s, t := h + "-tcp-" + d, g + "-tcp-";
    assert ServiceName(h, port) == "svc-" + s && ServicePrefix(g) == "svc-" + t;
    SharedPrefix("svc-", t, s);
    if t <= s { PrefixMeansExtension(g, h, d); }
    if h == g { assert s == t + d; }
    if h == g + "-tcp" { assert s == t + "tcp-" + d; }
    if t <= h { assert s == t + (h[|t|..] + "-tcp-" + d); }
  }

  lemma SharedPrefix(c: string, t: string, s: string)
    ensures c + t <= c + s <==> t <= s
  {
    assert forall i :: 0 <= i < |s| ==> (c + s)[|c| + i] == s[i];
    assert forall i :: 0 <= i < |t| ==> (c + t)[|c| + i] == t[i];
  }

  lemma PrefixMeansExtension(g: string, h: string, d: string)
    requires |d| >= 1 && forall i :: 0 <= i < |d| ==> '0' <= d[i] <= '9'
    requires g + "-tcp-" <= h + "-tcp-" + d
    ensures h == g || h == g + "-tcp" || g + "-tcp-" <= h
  {
    var s, t := h + "-tcp-" + d, g + "-tcp-";
    var n := |g|;
    assert forall i :: 0 <= i < |t| ==> s[i] == t[i];
    assert t[n] == '-' && t[n + 1] == 't' && t[n + 2] == 'c' && t[n + 3] == 'p' && t[n + 4] == '-';
    var m := |h|;
    assert s[m] == '-' && s[m + 1] == 't' && s[m + 2] == 'c' && s[m + 3] == 'p' && s[m + 4] == '-';
    assert forall i :: 0 <= i < |d| ==> s[m + 5 + i] == d[i];
    assert forall i :: m + 5 <= i < |s| ==> s[i] == d[i - m - 5];
    assert m >= n || n >= m + 5 || n == m + 4 || n == m + 3 || n == m + 2 || n == m + 1;
    if m < n {
      assert false;
    } else if m == n {
      assert h == g by { assert h == s[..n] && g == t[..n]; }
    } else if m == n + 4 {
      assert h == s[..m] && t[..m] == g + "-tcp";
    } else {
      assert m != n + 1 && m != n + 2 && m != n + 3;
      assert h[..|t|] == s[..|t|];
    }
  }

  // --- Ports ------------------------------------------------------------------------------

  datatype PortsResult = Ports(ports: seq<int>) | NoPorts | NotANumber | OutOfRange(port: int)

  /** A requested port, or `None` for text that is not a number. */
  predicate Acceptable(entry: Option<int>) {
    entry.Some? && MIN_PORT <= entry.value <= MAX_PORT
  }

  predicate Ascending(ports: seq<int>) {
    forall i, j :: 0 <= i < j < |ports| ==> ports[i] < ports[j]
  }

  /** `ports` is the entries, each a number in range, as an ascending list. */
  ghost predicate Lists(ports: seq<int>, entries: seq<Option<int>>) {
    && Ascending(ports)
    && (forall p :: p in ports <==> Some(p) in entries)
    && forall entry :: entry in entries ==> Acceptable(entry)
  }

  /** The first entry that is no number in range is this one. */
  ghost predicate FirstBad(entries: seq<Option<int>>, bad: Option<int>) {
    exists i :: 0 <= i < |entries| && entries[i] == bad
      && forall k :: 0 <= k < i ==> entries[k].Some? && 1 <= entries[k].value <= 65535
  }

  lemma ListsOneMore(ports: seq<int>, entries: seq<Option<int>>, port: int)
    requires Lists(ports, entries) && MIN_PORT <= port <= MAX_PORT
    ensures Lists(Put(ports, port), entries + [Some(port)])
  {
    PutInOrder(ports, port);
  }

  /** The ports the grant names, else those its application answers on: ascending,
      without duplicates, all of them and no other. An empty list is refused rather
      than read as every port. */
  method NormalisePorts(named: seq<Option<int>>, derived: seq<Option<int>>) returns (r: PortsResult)
    ensures var raw := if named != [] then named else derived;
            && (r.NoPorts? <==> raw == [])
            && (r.Ports? <==> raw != [] && forall entry :: entry in raw ==> entry.Some? && 1 <= entry.value <= 65535)
            && (r.Ports? ==> (forall i, j :: 0 <= i < j < |r.ports| ==> r.ports[i] < r.ports[j])
                             && forall p :: p in r.ports <==> Some(p) in raw)
            && (r.OutOfRange? ==> !(1 <= r.port <= 65535) && FirstBad(raw, Some(r.port)))
            && (r.NotANumber? ==> FirstBad(raw, None))
  {
    var raw := if named != [] then named else derived;
    if raw == [] {
      return NoPorts;
    }
    var ports: seq<int> := [];
    for i := 0 to |raw|
      invariant Lists(ports, raw[..i])
    {
      assert raw[..i + 1] == raw[..i] + [raw[i]];
      assert forall k :: 0 <= k < i ==> raw[k] in raw[..i];
      if raw[i].None? {
        assert raw[i] in raw && !Acceptable(raw[i]);
        return NotANumber;
      }
      var port := raw[i].value;
      if !(MIN_PORT <= port <= MAX_PORT) {
        assert raw[i] in raw && raw[i] == Some(port) && !Acceptable(raw[i]);
        return OutOfRange(port);
      }
      ListsOneMore(ports, raw[..i], port);
      ports := Put(ports, port);
    }
    assert raw[..|raw|] == raw;
    return Ports(ports);
  }

  /** Adds to an ascending list, as a set kept in order. */
  function Put(ports: seq<int>, port: int): seq<int> {
    if ports == [] then [port]
    else if port < ports[0] then [port] + ports
    else if port == ports[0] then ports
    else [ports[0]] + Put(ports[1..], port)
  }

  lemma {:induction false} PutInOrder(ports: seq<int>, port: int)
    requires Ascending(ports)
    ensures Ascending(Put(ports, port)) && forall p :: p in Put(ports, port) <==> p == port || p in ports
  {
    if ports != [] && port > ports[0] {
      PutInOrder(ports[1..], port);
      assert ports == [ports[0]] + ports[1..];
      var rest := Put(ports[1..], port);
      forall i | 0 <= i < |rest| ensures ports[0] < rest[i] {
        assert rest[i] in rest;
      }
    }
  }

  // --- The address book -----------------------------------------------------------------------

  /** The first free index at or above the grant's own offset: clear of every taken one
      and of the hand-written book below the floor. */
  method BookIndex(offset: nat, taken: set<nat>) returns (candidate: nat)
    requires offset >= BOOK_INDEX_FLOOR
    ensures candidate !in taken && candidate >= offset && candidate >= 1000
    ensures forall k :: offset <= k < candidate ==> k in taken
  {
    candidate := offset;
    while candidate in taken
      invariant offset <= candidate && forall k :: offset <= k < candidate ==> k in taken
      decreases set t | t in taken && t >= candidate
    {
      ghost var before := set t | t in taken && t >= candidate;
      candidate := candidate + 1;
      assert candidate - 1 in before && (set t | t in taken && t >= candidate) <= before - {candidate - 1};
    }
  }
}
