/**
 * Routing in the host daemon: normalization of hosts and paths, the longest matching prefix, and
 * the weighted choice among a route's targets with saturating 32-bit sums.
 */
module RouteTable {
  import opened Wrappers
  import opened Encodings
  import opened Text

  // ---------------------------------------------------------------- hosts and paths

  /** The Unicode White_Space property. */
  predicate IsSpace(c: char) {
    || '\t' <= c <= '\r' || c == ' ' || c == '\U{0085}' || c == '\U{00A0}' || c == '\U{1680}'
    || '\U{2000}' <= c <= '\U{200A}' || c == '\U{2028}' || c == '\U{2029}' || c == '\U{202F}'
    || c == '\U{205F}' || c == '\U{3000}'
  }

  function LowerChar(c: char): char { if 'A' <= c <= 'Z' then (c as int + 32) as char else c }

  function Lower(s: string): (r: string)
    ensures |r| == |s| && forall i :: 0 <= i < |s| ==> r[i] == LowerChar(s[i])
  {
    if s == [] then [] else Lower(s[..|s| - 1]) + [LowerChar(s[|s| - 1])]
  }

  predicate NoColon(s: string) {
    forall i :: 0 <= i < |s| ==> s[i] != ':'
  }

  /** The position of the last colon, or -1. */
  function LastColon(s: string): (i: int)
    ensures -1 <= i < |s|
  {
    if s == [] then -1
    else if s[|s| - 1] == ':' then |s| - 1
    else LastColon(s[..|s| - 1])
  }

  predicate Digits(s: string) {
    forall i :: 0 <= i < |s| ==> '0' <= s[i] <= '9'
  }

  /** Cuts at the last colon when only digits follow it. */
  function WithoutPort(s: string): string {
    var i := LastColon(s);
    if i >= 0 && Digits(s[i + 1..]) then s[..i] else s
  }

  function NormalizeHost(host: string): string { WithoutPort(Lower(Trim(IsSpace, host))) }

  /** The path without the query. */
  function PathOnly(s: string): string {
    if s == [] || s[0] == '?' then [] else [s[0]] + PathOnly(s[1..])
  }

  predicate IsSlash(c: char) { c == '/' }

  function NormalizePrefix(value: string): Result<string, string> {
    var trimmed := Trim(IsSpace, value);
    if trimmed == [] then Ok("/")
    else if trimmed[0] != '/' then Err("prefix must start with /")
    else
      var prefix := PathOnly(trimmed);
      if prefix != "/" && prefix != [] && prefix[|prefix| - 1] == '/' then Ok(TrimEnd(IsSlash, prefix)) else Ok(prefix)
  }

  /** The path ends at the first question mark, or at the end. */
  lemma {:induction false} PathOnlyMeans(s: string)
    ensures var p := PathOnly(s); p <= s && '?' !in p && (p != s ==> s[|p|] == '?')
  {
    if s != [] && s[0] != '?' {
      PathOnlyMeans(s[1..]);
    }
  }

  /** Capital ASCII letters are folded, and nothing else. */
  lemma LowerMeans(s: string, i: nat)
    requires i < |s|
    ensures |Lower(s)| == |s|
    ensures if 'A' <= s[i] <= 'Z' then Lower(s)[i] as int - 'a' as int == s[i] as int - 'A' as int else Lower(s)[i] == s[i]
  {}

  /** What is cut off is a colon and only digits after it, and it is cut off whenever a host ends so. */
  lemma WithoutPortMeans(s: string)
    ensures var r := WithoutPort(s);
      r <= s
      && (r != s ==> s[|r|] == ':' && Digits(s[|r| + 1..]))
      && (r == s ==> forall i :: 0 <= i < |s| && s[i] == ':' ==> !Digits(s[i + 1..]))
  {
    LastColonMeans(s);
    forall i | 0 <= i < LastColon(s) && s[i] == ':' ensures !Digits(s[i + 1..]) {
      assert s[i + 1..][LastColon(s) - i - 1] == ':';
    }
  }

  lemma {:induction false} LastColonMeans(s: string)
    ensures var i := LastColon(s);
      (i >= 0 ==> s[i] == ':') && forall j :: i < j < |s| ==> s[j] != ':'
  {
    if s != [] {
      LastColonMeans(s[..|s| - 1]);
    }
  }

  predicate PrefixMatches(path: string, prefix: string) {
    || prefix == "/"
    || path == prefix
    || (prefix <= path && |path| > |prefix| && path[|prefix|] == '/')
  }

  // ---------------------------------------------------------------- prefixes as path segments

  /**
   * A prefix other than "/" matches exactly the paths whose segments begin with its own; in
   * particular every prefix that starts with a slash and does not end with one.
   */
  lemma MatchIsSegmentPrefix(path: string, prefix: string)
    requires prefix != "/"
    ensures PrefixMatches(path, prefix) <==> Split('/', prefix) <= Split('/', path)
  {
    if PrefixMatches(path, prefix) && path != prefix {
      var rest := path[|prefix| + 1..];
      assert path == prefix + ("/" + rest);
      SplitConcat('/', prefix, rest);
    }
    if Split('/', prefix) <= Split('/', path) {
      JoinOfSplit('/', prefix);
      JoinOfSplit('/', path);
      var rest := Split('/', path)[|Split('/', prefix)|..];
      assert Split('/', path) == Split('/', prefix) + rest;
      if rest == [] {
        assert Split('/', path) == Split('/', prefix);
      } else {
        JoinConcat('/', Split('/', prefix), rest);
      }
    }
  }

  /** The root prefix is the empty list of segments, for any path that starts with a slash. */
  lemma RootMatchesAbsolutePaths(path: string)
    requires path != [] && path[0] == '/'
    ensures PrefixMatches(path, "/") && [""] <= Split('/', path)
    ensures PrefixMatches(path, "")
  {}

  predicate AllSlashes(s: string) {
    forall i :: 0 <= i < |s| ==> IsSlash(s[i])
  }

  /** Blank text is the root prefix; anything else must start with a slash. */
  lemma PrefixErrors(value: string)
    ensures var trimmed := Trim(IsSpace, value);
      && (trimmed == "" ==> NormalizePrefix(value) == Ok("/"))
      && (NormalizePrefix(value).Err? <==> trimmed != "" && trimmed[0] != '/')
  {}

  /**
   * A normalized prefix is the path of the text without the slashes it ends with, except that a single
   * slash stays. It is "/" or starts with a slash and does not end with one, exactly unless it
   * came from two or more slashes, which normalize to the empty prefix.
   */
  lemma NormalizedPrefix(value: string)
    requires NormalizePrefix(value).Ok?
    ensures var p := NormalizePrefix(value).value; var path := PathOnly(Trim(IsSpace, value));
      && (Trim(IsSpace, value) != "" ==> p <= path && AllSlashes(path[|p|..]) && (path == "/" ==> p == "/"))
      && ((p == "/" || (p != [] && p[0] == '/' && p[|p| - 1] != '/')) <==> !(AllSlashes(path) && |path| >= 2))
      && (AllSlashes(path) && |path| >= 2 ==> p == "")
  {
    var path := PathOnly(Trim(IsSpace, value));
    TrimEndOf(IsSlash, path);
    TrimEndDrops(IsSlash, path);
    if AllSlashes(path) && |path| == 1 {
      assert path == "/";
    }
  }

  // ---------------------------------------------------------------- the longest prefix

  datatype Route<T> = Route(host: string, prefix: string, target: T)

  predicate Candidate<T>(r: Route<T>, host: string, path: string) {
    r.host == host && PrefixMatches(path, r.prefix)
  }

  /** Of several maxima, Iterator::max_by_key keeps the last. */
  function LongestMatch<T>(routes: seq<Route<T>>, host: string, path: string): (r: Option<nat>)
    ensures r.Some? ==> r.value < |routes|
  {
    if routes == [] then None
    else
      var n := |routes| - 1;
      var best := LongestMatch(routes[..n], host, path);
      if Candidate(routes[n], host, path) && (best.None? || |routes[best.value].prefix| <= |routes[n].prefix|) then Some(n) else best
  }

  function MatchRoute<T>(routes: seq<Route<T>>, host: string, path: string): Option<nat> {
    LongestMatch(routes, NormalizeHost(host), PathOnly(path))
  }

  /** The k-th route matches; no matching prefix is longer, and no later one as long. */
  predicate Best<T>(routes: seq<Route<T>>, k: nat, host: string, path: string) {
    && k < |routes|
    && Candidate(routes[k], host, path)
    && (forall i :: 0 <= i < |routes| && Candidate(routes[i], host, path) ==>
          |routes[i].prefix| <= |routes[k].prefix| && (i > k ==> |routes[i].prefix| < |routes[k].prefix|))
  }

  lemma {:induction false} LongestIsBest<T>(routes: seq<Route<T>>, host: string, path: string)
    ensures var r := LongestMatch(routes, host, path);
      && (r.None? <==> forall i :: 0 <= i < |routes| ==> !Candidate(routes[i], host, path))
      && (r.Some? ==> Best(routes, r.value, host, path))
  {
    if routes != [] {
      var n := |routes| - 1;
      var init := routes[..n];
      LongestIsBest(init, host, path);
      assert forall i :: 0 <= i < n ==> routes[i] == init[i];
    }
  }

  /**
   * A route is found exactly when one has the normalized host and a prefix that matches the path
   * without query, and then it is the one with the longest such prefix, the last of repetitions.
   */
  lemma LongestPrefixWins<T>(routes: seq<Route<T>>, host: string, path: string)
    ensures var r := MatchRoute(routes, host, path);
      && (r.None? <==> forall i :: 0 <= i < |routes| ==> !Candidate(routes[i], NormalizeHost(host), PathOnly(path)))
      && (r.Some? ==> Best(routes, r.value, NormalizeHost(host), PathOnly(path)))
  {
    LongestIsBest(routes, NormalizeHost(host), PathOnly(path));
  }

  /** For an absolute path there are no two different longest prefixes. */
  lemma EquallyLongPrefixesAreEqual(path: string, p: string, q: string)
    requires path != [] && path[0] == '/' && PrefixMatches(path, p) && PrefixMatches(path, q) && |p| == |q|
    ensures p == q
  {
    assert p == path[..|p|] && q == path[..|q|];
  }

  // ---------------------------------------------------------------- the weighted choice

  const MAX_U32: nat := 0xFFFF_FFFF

  type Weight = x: int | 0 <= x <= MAX_U32

  function Saturating(a: Weight, b: Weight): Weight { if a + b > MAX_U32 then MAX_U32 else a + b }

  function Wrapping(a: Weight, b: Byte): Weight { (a + b) % 0x1_0000_0000 }

  function Sum(ws: seq<Weight>): nat {
    if ws == [] then 0 else Sum(ws[..|ws| - 1]) + ws[|ws| - 1]
  }

  function SaturatedSum(ws: seq<Weight>): (r: Weight)
    ensures r == if Sum(ws) > MAX_U32 then MAX_U32 else Sum(ws)
  {
    if ws == [] then 0 else Saturating(SaturatedSum(ws[..|ws| - 1]), ws[|ws| - 1])
  }

  function ByteSum(bs: seq<Byte>): nat {
    if bs == [] then 0 else ByteSum(bs[..|bs| - 1]) + bs[|bs| - 1]
  }

  /** A wrapping sum of the octets. */
  function StableHash(s: string): Weight { ByteSum(Utf8(s)) % 0x1_0000_0000 }

  lemma WrapStep(sum: nat, b: Byte)
    ensures Wrapping(sum % 0x1_0000_0000, b) == (sum + b) % 0x1_0000_0000
  {}

  method HashOf(s: string) returns (hash: Weight)
    ensures hash == StableHash(s)
  {
    var bytes := Utf8(s);
    hash := 0;
    for i := 0 to |bytes|
      invariant hash == ByteSum(bytes[..i]) % 0x1_0000_0000
    {
      assert bytes[..i + 1][..i] == bytes[..i];
      WrapStep(ByteSum(bytes[..i]), bytes[i]);
      hash := Wrapping(hash, bytes[i]);
    }
    assert bytes[..|bytes|] == bytes;
  }

  function CodeSum(s: string): nat {
    if s == [] then 0 else s[0] as int + CodeSum(s[1..])
  }

  lemma {:induction false} ByteSumConcat(a: seq<Byte>, b: seq<Byte>)
    ensures ByteSum(a + b) == ByteSum(a) + ByteSum(b)
  {
    if b == [] {
      assert a + b == a;
    } else {
      assert (a + b)[..|a + b| - 1] == a + b[..|b| - 1];
      ByteSumConcat(a, b[..|b| - 1]);
    }
  }

  /** The hash of ASCII text is the sum of its codes. */
  lemma {:induction false} HashOfAscii(s: string)
    requires forall i :: 0 <= i < |s| ==> s[i] as int < 128
    ensures ByteSum(Utf8(s)) == CodeSum(s) && StableHash(s) == CodeSum(s) % 0x1_0000_0000
  {
    if s != [] {
      HashOfAscii(s[1..]);
      ByteSumConcat(EncodeChar(s[0]), Utf8(s[1..]));
      assert EncodeChar(s[0])[..0] == [];
    }
  }

  lemma RemaindersAdd(x: nat, y: nat)
    ensures (x % 0x1_0000_0000 + y % 0x1_0000_0000) % 0x1_0000_0000 == (x + y) % 0x1_0000_0000
  {}

  /** The hash of a text is the sum of the hashes of its parts, so it does not depend on their order. */
  lemma HashOfParts(a: string, b: string)
    ensures StableHash(a + b) == (StableHash(a) + StableHash(b)) % 0x1_0000_0000
    ensures StableHash(a + b) == StableHash(b + a)
  {
    Utf8Concat(a, b);
    Utf8Concat(b, a);
    ByteSumConcat(Utf8(a), Utf8(b));
    ByteSumConcat(Utf8(b), Utf8(a));
    RemaindersAdd(ByteSum(Utf8(a)), ByteSum(Utf8(b)));
  }

  /** Slots are dealt out in order: target i owns those from the sum of the weights before it. */
  predicate Owns(ws: seq<Weight>, i: nat, slot: int) {
    i < |ws| && Sum(ws[..i]) <= slot < Sum(ws[..i]) + ws[i]
  }

  function Slot(ws: seq<Weight>, host: string, path: string): Weight
    requires SaturatedSum(ws) > 0
  {
    StableHash(NormalizeHost(host) + PathOnly(path)) % SaturatedSum(ws)
  }

  method TotalWeight(ws: seq<Weight>) returns (total: Weight)
    ensures total == SaturatedSum(ws)
  {
    total := 0;
    for i := 0 to |ws|
      invariant total == SaturatedSum(ws[..i])
    {
      assert ws[..i + 1][..i] == ws[..i];
      total := Saturating(total, ws[i]);
    }
    assert ws[..|ws|] == ws;
  }

  /** The cursor runs over the saturating partial sums. */
  method Pick(ws: seq<Weight>, slot: Weight) returns (chosen: nat)
    requires slot < SaturatedSum(ws)
    ensures Owns(ws, chosen, slot)
  {
    assert ws[..|ws|] == ws;
    var cursor := 0;
    for i := 0 to |ws|
      invariant cursor == SaturatedSum(ws[..i]) <= slot
    {
      assert ws[..i + 1][..i] == ws[..i];
      cursor := Saturating(cursor, ws[i]);
      if slot < cursor {
        return i;
      }
    }
    assert false;
  }

  /** The index of the chosen target; without any weight, none: the primary deployment is used. */
  method SelectTarget(ws: seq<Weight>, host: string, path: string) returns (chosen: Option<nat>)
    ensures chosen.None? <==> Sum(ws) == 0
    ensures chosen.Some? ==>
      Owns(ws, chosen.value,
           StableHash(NormalizeHost(host) + PathOnly(path)) % (if Sum(ws) > 0xFFFF_FFFF then 0xFFFF_FFFF else Sum(ws)))
  {
    var total := TotalWeight(ws);
    if total == 0 {
      return None;
    }
    var hash := HashOf(NormalizeHost(host) + PathOnly(path));
    var index := Pick(ws, hash % total);
    chosen := Some(index);
  }

  lemma {:induction false} SumPrefix(ws: seq<Weight>, i: nat, j: nat)
    requires i <= j <= |ws|
    ensures Sum(ws[..i]) <= Sum(ws[..j])
    decreases j
  {
    if i < j {
      SumPrefix(ws, i, j - 1);
      assert ws[..j][..j - 1] == ws[..j - 1];
    }
  }

  lemma OneOwner(ws: seq<Weight>, i: nat, j: nat, slot: nat)
    requires Owns(ws, i, slot) && Owns(ws, j, slot)
    ensures i == j
  {
    assert ws[..i + 1][..i] == ws[..i] && ws[..j + 1][..j] == ws[..j];
    if i < j {
      SumPrefix(ws, i + 1, j);
    } else if j < i {
      SumPrefix(ws, j + 1, i);
    }
  }

  /** Every slot below the exact total has exactly one owner, which has a positive weight. */
  lemma EverySlotIsOwned(ws: seq<Weight>, slot: nat)
    requires slot < Sum(ws)
    ensures exists i: nat :: Owns(ws, i, slot) && ws[i] > 0 && forall j: nat :: Owns(ws, j, slot) ==> j == i
  {
    var i := Owner(ws, slot);
    forall j: nat | Owns(ws, j, slot) ensures j == i {
      OneOwner(ws, i, j, slot);
    }
  }

  lemma {:induction false} Owner(ws: seq<Weight>, slot: nat) returns (i: nat)
    requires slot < Sum(ws)
    ensures Owns(ws, i, slot) && ws[i] > 0
  {
    var n := |ws| - 1;
    if Sum(ws[..n]) <= slot {
      i := n;
    } else {
      i := Owner(ws[..n], slot);
      assert ws[..n][..i] == ws[..i];
    }
  }

  /**
   * Target i is chosen for exactly as many slots as its weight when the weights add up within 32
   * bits; when the sums saturate, the slots that remain are those below the saturated total.
   */
  lemma WeightIsShare(ws: seq<Weight>, i: nat)
    requires i < |ws|
    ensures |SlotsOf(ws, i)| <= ws[i]
    ensures Sum(ws) <= MAX_U32 ==> |SlotsOf(ws, i)| == ws[i]
  {
    var from := Sum(ws[..i]);
    SumPrefix(ws, i + 1, |ws|);
    assert ws[..i + 1][..i] == ws[..i] && ws[..|ws|] == ws;
    var end := if from + ws[i] <= SaturatedSum(ws) then from + ws[i] else if from <= SaturatedSum(ws) then SaturatedSum(ws) else from;
    assert SlotsOf(ws, i) == Range(from, end);
    RangeSize(from, end);
  }

  function SlotsOf(ws: seq<Weight>, i: nat): set<nat> {
    set s: nat | s < SaturatedSum(ws) && Owns(ws, i, s)
  }

  predicate InRange(from: nat, s: nat, end: nat) { from <= s < end }

  function Range(from: nat, end: nat): set<nat> {
    set s: nat | s < end && InRange(from, s, end)
  }

  lemma {:induction false} RangeSize(from: nat, end: nat)
    requires from <= end
    ensures |Range(from, end)| == end - from
    decreases end
  {
    if from == end {
      assert Range(from, end) == {};
    } else {
      RangeSize(from, end - 1);
      assert Range(from, end) == Range(from, end - 1) + {end - 1};
    }
  }

  // ---------------------------------------------------------------- what the choice ignores

  lemma {:induction false} QueryIgnored(path: string, query: string)
    ensures PathOnly(path + "?" + query) == PathOnly(path)
  {
    if path == [] {
      assert (path + "?" + query)[0] == '?';
    } else if path[0] != '?' {
      QueryIgnored(path[1..], query);
      assert (path + "?" + query)[1..] == path[1..] + "?" + query;
    }
  }

  /** A host that neither starts nor ends with white space. */
  predicate Trimmed(s: string) {
    s != [] && !IsSpace(s[0]) && !IsSpace(s[|s| - 1])
  }

  /** White space around a host is ignored, and so is the case of its letters. */
  lemma SpaceAndCaseIgnored(before: string, host: string, other: string, after: string)
    requires Trimmed(host) && AllDropped(IsSpace, before) && AllDropped(IsSpace, after)
    requires Trimmed(other) && Lower(other) == Lower(host)
    ensures NormalizeHost(before + host + after) == NormalizeHost(other) == WithoutPort(Lower(host))
  {
    TrimMeans(IsSpace, before, host, after);
    NothingToTrim(IsSpace, other);
  }

  /** A port is cut off, once: adding one changes nothing exactly when the host had none. */
  lemma PortIgnored(host: string, port: string)
    requires Trimmed(host) && Digits(port)
    ensures NormalizeHost(host + ":" + port) == Lower(host)
    ensures NormalizeHost(host + ":" + port) == NormalizeHost(host) <==> WithoutPort(Lower(host)) == Lower(host)
  {
    var full := host + ":" + port;
    assert full == host + (":" + port);
    assert full[|full| - 1] == if port == [] then ':' else port[|port| - 1];
    NothingToTrim(IsSpace, full);
    NothingToTrim(IsSpace, host);
    LowerWithPort(host, port);
    ColonBeforeDigits(Lower(host), port);
  }

  lemma LowerWithPort(host: string, port: string)
    requires Digits(port)
    ensures Lower(host + (":" + port)) == Lower(host) + (":" + port)
  {
    var full, lowered := host + (":" + port), Lower(host) + (":" + port);
    forall i | 0 <= i < |full| ensures Lower(full)[i] == lowered[i] {
      assert full[i] == if i < |host| then host[i] else if i == |host| then ':' else port[i - |host| - 1];
    }
  }

  lemma ColonBeforeDigits(a: string, port: string)
    requires Digits(port)
    ensures WithoutPort(a + (":" + port)) == a
  {
    var s := a + (":" + port);
    LastColonOf(a, port);
    assert s[|a| + 1..] == port && s[..|a|] == a;
  }

  lemma {:induction false} LastColonOf(a: string, b: string)
    requires NoColon(b)
    ensures LastColon(a + (":" + b)) == |a|
  {
    var s := a + (":" + b);
    if b != [] {
      assert s[..|s| - 1] == a + (":" + b[..|b| - 1]);
      assert s[|s| - 1] == b[|b| - 1];
      LastColonOf(a, b[..|b| - 1]);
    }
  }

  /** Requests that differ only in query and port choose the same slot, whatever the weights. */
  lemma ChoiceIgnoresQueryAndPort(ws: seq<Weight>, host: string, port: string, path: string, query: string)
    requires SaturatedSum(ws) > 0
    requires Trimmed(host) && NoColon(host) && Digits(port)
    ensures Slot(ws, host + ":" + port, path + "?" + query) == Slot(ws, host, path)
  {
    QueryIgnored(path, query);
    PortIgnored(host, port);
    NoPort(Lower(host));
  }

  lemma {:induction false} NoPort(host: string)
    requires NoColon(host)
    ensures LastColon(host) == -1
  {
    if host != [] {
      NoPort(host[..|host| - 1]);
    }
  }
}
