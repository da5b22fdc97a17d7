/** W3C trace context: parsing and printing traceparent, and validating tracestate (Trace Context, sections 3.2 and 3.3). */
module TraceContext {
  import opened Wrappers
  import opened Text

  // ---------------------------------------------------------------- tracestate

  predicate Blank(c: char) { c == ' ' || c == '\t' }

  function TrimBlanks(s: string): string { Trim(Blank, s) }

  /** The first position of a character, or -1. */
  function IndexOf(c: char, s: string): (i: int)
    ensures -1 <= i < |s|
    ensures i >= 0 ==> s[i] == c
  {
    if s == [] then -1
    else if s[0] == c then 0
    else
      var i := IndexOf(c, s[1..]);
      if i < 0 then -1 else i + 1
  }

  predicate Lowercase(c: char) { 'a' <= c <= 'z' }

  predicate Decimal(c: char) { '0' <= c <= '9' }

  predicate KeyChar(c: char) {
    Lowercase(c) || Decimal(c) || c == '_' || c == '-' || c == '*' || c == '/'
  }

  predicate KeyChars(s: string) {
    forall i :: 0 <= i < |s| ==> KeyChar(s[i])
  }

  /** A simple key, or tenant@system. */
  predicate ValidKey(key: string) {
    var at := IndexOf('@', key);
    if at >= 0 then
      var tenant, system := key[..at], key[at + 1..];
      && 0 < |tenant| <= 241 && KeyChars(tenant) && (Lowercase(tenant[0]) || Decimal(tenant[0]))
      && 0 < |system| <= 14 && KeyChars(system) && Lowercase(system[0])
    else 0 < |key| <= 256 && KeyChars(key) && Lowercase(key[0])
  }

  predicate ValidValue(value: string) {
    && 0 < |value| <= 256
    && value[|value| - 1] != ' '
    && forall i :: 0 <= i < |value| ==> ' ' <= value[i] <= '~' && value[i] != ',' && value[i] != '='
  }

  datatype Member = Member(key: string, value: string)

  function Printed(m: Member): string { m.key + ("=" + m.value) }

  function ParseMember(text: string): Option<Member> {
    var t := TrimBlanks(text);
    var eq := IndexOf('=', t);
    if eq >= 0 && ValidKey(t[..eq]) && ValidValue(t[eq + 1..]) then Some(Member(t[..eq], t[eq + 1..])) else None
  }

  function ParseAll(members: seq<string>): (r: seq<Option<Member>>)
    ensures |r| == |members|
  {
    if members == [] then [] else ParseAll(members[..|members| - 1]) + [ParseMember(members[|members| - 1])]
  }

  /** The keys of the first n members. */
  function Keys(ms: seq<Option<Member>>, n: nat): set<string>
    requires n <= |ms|
  {
    if n == 0 then {} else Keys(ms, n - 1) + if ms[n - 1].Some? then {ms[n - 1].value.key} else {}
  }

  /** The first n members are valid and none has the key of an earlier one. */
  predicate Fresh(ms: seq<Option<Member>>, n: nat)
    requires n <= |ms|
  {
    n == 0 || (Fresh(ms, n - 1) && ms[n - 1].Some? && ms[n - 1].value.key !in Keys(ms, n - 1))
  }

  predicate Acceptable(ms: seq<Option<Member>>) {
    |ms| <= 32 && Fresh(ms, |ms|)
  }

  lemma {:induction false} FreshMember(ms: seq<Option<Member>>, i: nat, n: nat)
    requires i < n <= |ms|
    ensures Fresh(ms, n) ==> ms[i].Some? && ms[i].value.key !in Keys(ms, i)
    decreases n
  {
    if i < n - 1 {
      FreshMember(ms, i, n - 1);
    }
  }

  /** The first n members printed again. */
  function Texts(ms: seq<Option<Member>>, n: nat): (r: seq<string>)
    requires n <= |ms|
    ensures |r| == n
  {
    if n == 0 then [] else Texts(ms, n - 1) + [if ms[n - 1].Some? then Printed(ms[n - 1].value) else ""]
  }

  lemma {:induction false} TextAt(ms: seq<Option<Member>>, n: nat, i: nat)
    requires i < n <= |ms| && ms[i].Some?
    ensures Texts(ms, n)[i] == Printed(ms[i].value)
    decreases n
  {
    if i < n - 1 {
      TextAt(ms, n - 1, i);
    }
  }

  lemma {:induction false} MemberAt(members: seq<string>, i: nat)
    requires i < |members|
    ensures ParseAll(members)[i] == ParseMember(members[i])
    decreases |members|
  {
    if i < |members| - 1 {
      MemberAt(members[..|members| - 1], i);
    }
  }

  function Reprinted(members: seq<string>): seq<string> {
    Texts(ParseAll(members), |members|)
  }

  function Normalized(state: string): Option<string> {
    if state == "" then Some("")
    else if |state| > 512 || !Acceptable(ParseAll(Split(',', state))) then None
    else Some(Join(',', Reprinted(Split(',', state))))
  }

  lemma PrintedIsTrimmed(text: string)
    requires ParseMember(text).Some?
    ensures Printed(ParseMember(text).value) == TrimBlanks(text)
  {
    var t := TrimBlanks(text);
    var eq := IndexOf('=', t);
    assert t == t[..eq] + ([t[eq]] + t[eq + 1..]);
  }

  lemma KeysNext(ms: seq<Option<Member>>, i: nat)
    requires i < |ms| && Fresh(ms, i) && |Keys(ms, i)| == i && ms[i].Some? && ms[i].value.key !in Keys(ms, i)
    ensures Keys(ms, i + 1) == Keys(ms, i) + {ms[i].value.key} && Fresh(ms, i + 1)
    ensures |Keys(ms, i + 1)| == i + 1
  {}

  /** The loop over the members: keys already seen, and the members printed again. */
  method NormalizeMembers(members: seq<string>, parse: string -> Option<Member>, ghost ms: seq<Option<Member>>)
    returns (normalized: Option<seq<string>>)
    requires |members| == |ms|
    requires forall i :: 0 <= i < |members| ==> ms[i] == parse(members[i])
    ensures normalized == if Acceptable(ms) then Some(Texts(ms, |ms|)) else None
  {
    var keys: set<string>, printed, i := {}, [], 0;
    while i < |members|
      invariant 0 <= i <= |members|
      invariant i <= 32
      invariant Fresh(ms, i)
      invariant keys == Keys(ms, i)
      invariant |keys| == i
      invariant printed == Texts(ms, i)
    {
      var member := parse(members[i]);
      FreshMember(ms, i, |ms|);
      if member.None? || member.value.key in keys {
        return None;
      }
      KeysNext(ms, i);
      keys := keys + {member.value.key};
      if |keys| > 32 {
        return None;
      }
      printed := printed + [Printed(member.value)];
      i := i + 1;
    }
    normalized := Some(printed);
  }

  method ValidState(state: string) returns (r: Option<string>)
    ensures r == Normalized(state)
  {
    if state == "" {
      return Some("");
    }
    if |state| > 512 {
      return None;
    }
    var members := Split(',', state);
    ghost var ms := ParseAll(members);
    forall i: nat | i < |members| ensures ms[i] == ParseMember(members[i]) {
      MemberAt(members, i);
    }
    var normalized := NormalizeMembers(members, ParseMember, ms);
    r := if normalized.Some? then Some(Join(',', normalized.value)) else None;
  }

  // ---------------------------------------------------------------- what is accepted

  lemma {:induction false} FirstIndex(c: char, a: string, b: string)
    requires Without(c, a)
    ensures IndexOf(c, a + ([c] + b)) == |a| && IndexOf(c, a) == -1
  {
    var s := a + ([c] + b);
    if a != [] {
      FirstIndex(c, a[1..], b);
      assert s[1..] == a[1..] + ([c] + b);
    }
  }

  /** A key without a tenant: up to 256 lowercase letters, digits and four marks, a letter first. */
  lemma SimpleKeys(key: string)
    requires '@' !in key
    ensures ValidKey(key) <==>
      && 1 <= |key| <= 256 && 'a' <= key[0] <= 'z'
      && forall i :: 0 <= i < |key| ==> 'a' <= key[i] <= 'z' || '0' <= key[i] <= '9' || key[i] in "_-*/"
  {
    FirstIndex('@', key, "");
    assert forall c: char :: c in "_-*/" <==> c == '_' || c == '-' || c == '*' || c == '/';
  }

  /** A key with a tenant: up to 241 characters, a letter or digit first, and up to 14, a letter first. */
  lemma TenantKeys(tenant: string, system: string)
    requires '@' !in tenant
    ensures ValidKey(tenant + ("@" + system)) <==>
      && 1 <= |tenant| <= 241 && ('a' <= tenant[0] <= 'z' || '0' <= tenant[0] <= '9') && KeyChars(tenant)
      && 1 <= |system| <= 14 && 'a' <= system[0] <= 'z' && KeyChars(system)
  {
    var key := tenant + ("@" + system);
    FirstIndex('@', tenant, system);
    assert key[..|tenant|] == tenant && key[|tenant| + 1..] == system;
  }

  lemma KeyHasNoEquals(key: string)
    requires ValidKey(key)
    ensures Without('=', key)
  {
    var at := IndexOf('@', key);
    forall i | 0 <= i < |key| ensures key[i] != '=' {
      if at >= 0 {
        assert i < at ==> key[..at][i] == key[i];
        assert i > at ==> key[at + 1..][i - at - 1] == key[i];
      }
    }
  }

  /** A member is its key and value, with any blanks around it. */
  lemma MemberIsAccepted(before: string, m: Member, after: string)
    requires ValidKey(m.key) && ValidValue(m.value)
    requires AllDropped(Blank, before) && AllDropped(Blank, after)
    ensures ParseMember(before + Printed(m) + after) == Some(m)
  {
    var t := Printed(m);
    KeyHasNoComma(m.key);
    KeyHasNoEquals(m.key);
    assert t[0] == m.key[0] && t[|t| - 1] == m.value[|m.value| - 1];
    TrimMeans(Blank, before, t, after);
    FirstIndex('=', m.key, m.value);
    assert t[..|m.key|] == m.key && t[|m.key| + 1..] == m.value;
  }

  ghost predicate DistinctKeys(ms: seq<Option<Member>>, n: nat)
    requires n <= |ms|
  {
    && (forall i :: 0 <= i < n ==> ms[i].Some?)
    && (forall i, j :: 0 <= i < j < n ==> ms[i].value.key != ms[j].value.key)
  }

  lemma {:induction false} FreshMeans(ms: seq<Option<Member>>, n: nat)
    requires n <= |ms|
    ensures Fresh(ms, n) <==> DistinctKeys(ms, n)
    ensures DistinctKeys(ms, n) ==> forall k :: k in Keys(ms, n) <==> exists i :: 0 <= i < n && ms[i].value.key == k
  {
    if n > 0 {
      FreshMeans(ms, n - 1);
    }
  }

  /** A state is kept exactly if it is empty, or has at most 512 characters and 32 members, all valid, with distinct keys. */
  lemma StateIsAccepted(state: string)
    ensures var ms := ParseAll(Split(',', state));
      Normalized(state).Some? <==>
        state == "" || (|state| <= 512 && |ms| <= 32 && DistinctKeys(ms, |ms|))
  {
    var ms := ParseAll(Split(',', state));
    FreshMeans(ms, |ms|);
  }

  // ---------------------------------------------------------------- normalization is stable

  /** A valid member survives trimming: it parses to the same key and value, and has no comma. */
  lemma TrimmedMember(text: string)
    requires ParseMember(text).Some?
    ensures var t := TrimBlanks(text);
      ParseMember(t) == ParseMember(text) && TrimBlanks(t) == t && Without(',', t) && 0 < |t| <= |text|
  {
    var t := TrimBlanks(text);
    var eq := IndexOf('=', t);
    var key, value := t[..eq], t[eq + 1..];
    assert t[0] == key[0] && t[|t| - 1] == value[|value| - 1];
    KeyHasNoComma(key);
    NothingToTrim(Blank, t);
    TrimStartShortens(Blank, text);
    TrimEndOf(Blank, TrimStart(Blank, text));
    forall i | 0 <= i < |t| ensures t[i] != ',' {
      assert i < eq ==> t[i] == key[i];
      assert i > eq ==> t[i] == value[i - eq - 1];
    }
  }

  lemma KeyHasNoComma(key: string)
    requires ValidKey(key)
    ensures Without(',', key) && !Blank(key[0])
  {
    var at := IndexOf('@', key);
    forall i | 0 <= i < |key| ensures key[i] != ',' {
      if at >= 0 {
        assert i < at ==> key[..at][i] == key[i];
        assert i > at ==> key[at + 1..][i - at - 1] == key[i];
      }
    }
    assert at >= 0 ==> key[..at][0] == key[0];
  }

  lemma {:induction false} JoinLength(a: seq<string>, b: seq<string>)
    requires |a| == |b| && forall i :: 0 <= i < |a| ==> |a[i]| <= |b[i]|
    ensures |Join(',', a)| <= |Join(',', b)|
  {
    if |a| > 1 {
      JoinLength(a[1..], b[1..]);
    }
  }

  lemma ReprintedAt(members: seq<string>, i: nat)
    requires i < |members| && ParseAll(members)[i].Some?
    ensures var texts := Reprinted(members);
      && texts[i] == TrimBlanks(members[i]) && ParseAll(texts)[i] == ParseAll(members)[i]
      && Without(',', texts[i]) && 0 < |texts[i]| <= |members[i]|
  {
    MemberAt(members, i);
    TextAt(ParseAll(members), |members|, i);
    PrintedIsTrimmed(members[i]);
    MemberAt(Reprinted(members), i);
    TrimmedMember(members[i]);
  }

  lemma ReprintedMembers(members: seq<string>)
    requires members != [] && forall i :: 0 <= i < |members| ==> ParseAll(members)[i].Some?
    ensures var texts := Reprinted(members);
      && ParseAll(texts) == ParseAll(members)
      && Split(',', Join(',', texts)) == texts && 0 < |Join(',', texts)| <= |Join(',', members)|
  {
    var texts := Reprinted(members);
    forall i: nat | i < |members|
      ensures ParseAll(texts)[i] == ParseAll(members)[i]
      ensures Without(',', texts[i]) && 0 < |texts[i]| <= |members[i]|
    {
      ReprintedAt(members, i);
    }
    SplitOfJoin(',', texts);
    JoinLength(texts, members);
    assert 0 < |texts[0]| <= |Join(',', texts)|;
  }

  /**
   * Normalization is idempotent, never lengthens the state, and keeps its members in order: the
   * result splits into texts that parse to the same keys and values, one after the other.
   */
  lemma NormalizationIsStable(state: string)
    requires Normalized(state).Some?
    ensures var n := Normalized(state).value;
      && Normalized(n) == Some(n)
      && |n| <= |state|
      && (state != "" ==> ParseAll(Split(',', n)) == ParseAll(Split(',', state)))
  {
    if state != "" {
      var members := Split(',', state);
      forall i: nat | i < |members| ensures ParseAll(members)[i].Some? {
        FreshMember(ParseAll(members), i, |members|);
      }
      ReprintedMembers(members);
      JoinOfSplit(',', state);
    }
  }

  // ---------------------------------------------------------------- traceparent

  /** The ids are lowercase hexadecimal; only the lowest flag, sampled, is kept. */
  datatype Context = Context(traceId: string, spanId: string, flags: nat, tracestate: string)

  predicate HexDigit(c: char) { Decimal(c) || 'a' <= c <= 'f' }

  predicate Hex(s: string, length: nat) {
    |s| == length && forall i :: 0 <= i < |s| ==> HexDigit(s[i])
  }

  predicate Zeros(s: string) {
    forall i :: 0 <= i < |s| ==> s[i] == '0'
  }

  function HexValue(c: char): nat
    requires HexDigit(c)
  {
    if Decimal(c) then c as int - '0' as int else c as int - 'a' as int + 10
  }

  predicate ValidParent(parts: seq<string>) {
    && |parts| >= 4
    && Hex(parts[0], 2) && parts[0] != "ff"
    && (parts[0] == "00" ==> |parts| == 4)
    && Hex(parts[1], 32) && !Zeros(parts[1])
    && Hex(parts[2], 16) && !Zeros(parts[2])
    && Hex(parts[3], 2)
    && forall i :: 4 <= i < |parts| ==> parts[i] != ""
  }

  function Flags(text: string): nat
    requires Hex(text, 2)
  {
    HexValue(text[0]) * 16 + HexValue(text[1])
  }

  function Parse(parent: string, state: string): Option<Context> {
    var parts := Split('-', parent);
    if !ValidParent(parts) then None
    else
      var tracestate := Normalized(state);
      Some(Context(parts[1], parts[2], Flags(parts[3]) % 2, if tracestate.Some? then tracestate.value else ""))
  }

  function FlagText(flags: nat): string { if flags % 2 == 1 then "01" else "00" }

  function TraceParent(c: Context): string {
    "00-" + c.traceId + "-" + c.spanId + "-" + FlagText(c.flags)
  }

  /** Four fields with dashes between them. */
  function Dashed(a: string, b: string, c: string, d: string): string {
    a + ("-" + (b + ("-" + (c + ("-" + d)))))
  }

  lemma DashedParts(a: string, b: string, c: string, d: string)
    requires Without('-', a) && Without('-', b) && Without('-', c) && Without('-', d)
    ensures Split('-', Dashed(a, b, c, d)) == [a, b, c, d]
  {
    SplitOfOne('-', a);
    SplitOfOne('-', b);
    SplitOfOne('-', c);
    SplitOfOne('-', d);
    SplitConcat('-', c, d);
    SplitConcat('-', b, c + ("-" + d));
    SplitConcat('-', a, b + ("-" + (c + ("-" + d))));
  }

  lemma DashedConcat(a: string, b: string, c: string, d: string)
    ensures a + "-" + b + "-" + c + "-" + d == Dashed(a, b, c, d)
  {}

  lemma {:induction false} DashedJoin(parts: seq<string>)
    requires |parts| == 4
    ensures Join('-', parts) == Dashed(parts[0], parts[1], parts[2], parts[3])
  {
    assert parts[1..][1..] == parts[2..] && parts[2..][1..] == parts[3..] && parts[3..] == [parts[3]];
    assert Join('-', parts[2..]) == parts[2] + (['-'] + Join('-', parts[3..]));
    assert Join('-', parts[1..]) == parts[1] + (['-'] + Join('-', parts[2..]));
  }

  lemma PrintedParts(c: Context)
    requires Hex(c.traceId, 32) && Hex(c.spanId, 16)
    ensures Split('-', TraceParent(c)) == ["00", c.traceId, c.spanId, FlagText(c.flags)]
  {
    DashedConcat("00", c.traceId, c.spanId, FlagText(c.flags));
    assert "00" + "-" == "00-";
    DashedParts("00", c.traceId, c.spanId, FlagText(c.flags));
  }

  /** A version 00 parent is 55 characters: version, trace id, span id and flags at fixed places, neither id all zeros. */
  predicate IsVersion00(p: string) {
    && |p| == 55 && p[..3] == "00-"
    && Hex(p[3..35], 32) && !Zeros(p[3..35]) && p[35] == '-'
    && Hex(p[36..52], 16) && !Zeros(p[36..52]) && p[52] == '-'
    && Hex(p[53..], 2)
  }

  lemma Version00Fields(a: string, b: string, c: string)
    requires |a| == 32 && |b| == 16 && |c| == 2
    ensures var p := Dashed("00", a, b, c);
      |p| == 55 && p[..3] == "00-" && p[3..35] == a && p[35] == '-' && p[36..52] == b && p[52] == '-' && p[53..] == c
  {}

  lemma Version00Parts(p: string)
    requires IsVersion00(p)
    ensures Split('-', p) == ["00", p[3..35], p[36..52], p[53..]]
  {
    assert p == Dashed("00", p[3..35], p[36..52], p[53..]);
    DashedParts("00", p[3..35], p[36..52], p[53..]);
  }

  lemma Version00First(parent: string)
    requires |parent| >= 3 && parent[..3] == "00-"
    ensures Split('-', parent)[0] == "00"
  {
    assert parent == "00" + ("-" + parent[3..]);
    SplitConcat('-', "00", parent[3..]);
    SplitOfOne('-', "00");
  }

  lemma FieldsAreVersion00(a: string, b: string, c: string)
    requires Hex(a, 32) && !Zeros(a) && Hex(b, 16) && !Zeros(b) && Hex(c, 2)
    ensures IsVersion00(Dashed("00", a, b, c))
  {
    Version00Fields(a, b, c);
  }

  lemma AcceptedVersion00(parent: string, parts: seq<string>)
    requires parts == Split('-', parent) && parts[0] == "00" && ValidParent(parts)
    ensures IsVersion00(parent)
  {
    JoinOfSplit('-', parent);
    DashedJoin(parts);
    FieldsAreVersion00(parts[1], parts[2], parts[3]);
  }

  /** The version 00 parents that are accepted, character by character, and what is taken from them. */
  lemma Version00IsExact(parent: string, state: string)
    requires |parent| >= 3 && parent[..3] == "00-"
    ensures Parse(parent, state).Some? <==> IsVersion00(parent)
    ensures IsVersion00(parent) ==>
      var c := Parse(parent, state).value;
      c.traceId == parent[3..35] && c.spanId == parent[36..52] && c.flags == HexValue(parent[54]) % 2
  {
    if IsVersion00(parent) {
      Version00Parts(parent);
    } else if ValidParent(Split('-', parent)) {
      Version00First(parent);
      AcceptedVersion00(parent, Split('-', parent));
    }
  }

  lemma EmptyField(fields: seq<string>, more: seq<string>)
    requires |fields| == 4
    ensures "" !in more <==> forall i :: 4 <= i < |fields + more| ==> (fields + more)[i] != ""
  {
    assert forall i :: 0 <= i < |more| ==> (fields + more)[i + 4] == more[i];
  }

  /** A later version, other than ff, may have more fields after the four known ones, none of them empty. */
  lemma LaterVersions(version: string, a: string, b: string, flags: string, more: string)
    requires Hex(version, 2) && version != "00"
    requires Hex(a, 32) && !Zeros(a) && Hex(b, 16) && !Zeros(b) && Hex(flags, 2)
    ensures Parse(Dashed(version, a, b, flags), "").Some? <==> version != "ff"
    ensures Parse(Dashed(version, a, b, flags) + ("-" + more), "").Some? <==>
      version != "ff" && "" !in Split('-', more)
  {
    DashedParts(version, a, b, flags);
    SplitConcat('-', Dashed(version, a, b, flags), more);
    EmptyField([version, a, b, flags], Split('-', more));
  }

  /**
   * Whatever was parsed, printing and parsing it again gives the same context; and a parent of any
   * accepted version is reprinted as version 00 with its own ids and sampled bit.
   */
  lemma ParseOfPrinted(parent: string, state: string)
    requires Parse(parent, state).Some?
    ensures var c := Parse(parent, state).value; var parts := Split('-', parent);
      && Parse(TraceParent(c), c.tracestate) == Some(c)
      && Split('-', TraceParent(c)) == ["00", parts[1], parts[2], FlagText(Flags(parts[3]))]
      && (parts[0] == "00" && (parts[3] == "00" || parts[3] == "01") ==> TraceParent(c) == parent)
  {
    var c, parts := Parse(parent, state).value, Split('-', parent);
    PrintedParts(c);
    PrintedIsValid(parts, c.flags);
    StateIsKept(state, c.tracestate);
    if parts[0] == "00" && (parts[3] == "00" || parts[3] == "01") {
      JoinOfSplit('-', parent);
      JoinOfSplit('-', TraceParent(c));
      assert parts == ["00", parts[1], parts[2], parts[3]];
    }
  }

  lemma PrintedIsValid(parts: seq<string>, flags: nat)
    requires ValidParent(parts) && flags == Flags(parts[3]) % 2
    ensures var printed := ["00", parts[1], parts[2], FlagText(flags)];
      ValidParent(printed) && Flags(printed[3]) == flags && FlagText(flags) == FlagText(Flags(parts[3]))
      && (parts[3] == "00" || parts[3] == "01" ==> FlagText(flags) == parts[3])
  {}

  lemma StateIsKept(state: string, kept: string)
    requires kept == if Normalized(state).Some? then Normalized(state).value else ""
    ensures Normalized(kept) == Some(kept)
  {
    if Normalized(state).Some? {
      NormalizationIsStable(state);
    }
  }

  /** The state never decides whether there is a parent; an invalid one is only dropped. */
  lemma StateNeverDiscardsParent(parent: string, state: string)
    ensures Parse(parent, state).Some? <==> Parse(parent, "").Some?
    ensures Parse(parent, state).Some? ==>
      Parse(parent, state).value == Parse(parent, "").value.(tracestate :=
        if Normalized(state).Some? then Normalized(state).value else "")
  {}

  // ---------------------------------------------------------------- headers

  /** All values of each header; None is a value that is not visible text. */
  type Headers = map<string, seq<Option<string>>>

  function Values(h: Headers, name: string): seq<Option<string>> {
    if name in h then h[name] else []
  }

  function Readable(values: seq<Option<string>>): seq<string> {
    if values == [] then []
    else (if values[0].Some? then [values[0].value] else []) + Readable(values[1..])
  }

  function FromHeaders(h: Headers): Option<Context> {
    var parents := Values(h, "traceparent");
    if |parents| != 1 || parents[0].None? then None
    else Parse(parents[0].value, Join(',', Readable(Values(h, "tracestate"))))
  }

  function Inject(h: Headers, c: Context): Headers {
    var parent := h["traceparent" := [Some(TraceParent(c))]] - {"tracestate"};
    if c.tracestate == "" then parent else parent["tracestate" := [Some(c.tracestate)]]
  }

  /** A context taken from any request arrives unchanged when injected into any other. */
  lemma HeadersRoundTrip(from: Headers, h: Headers)
    requires FromHeaders(from).Some?
    ensures FromHeaders(Inject(h, FromHeaders(from).value)) == FromHeaders(from)
  {
    var c := FromHeaders(from).value;
    ParseOfPrinted(Values(from, "traceparent")[0].value, Join(',', Readable(Values(from, "tracestate"))));
    InjectedValues(h, c);
  }

  lemma InjectedValues(h: Headers, c: Context)
    ensures Values(Inject(h, c), "traceparent") == [Some(TraceParent(c))]
    ensures Join(',', Readable(Values(Inject(h, c), "tracestate"))) == c.tracestate
  {
    assert "traceparent"[5] != "tracestate"[5];
    var none: seq<Option<string>> := [Some(c.tracestate)][1..];
    assert Readable(none) == [];
  }

  lemma {:induction false} AllReadable(values: seq<Option<string>>, states: seq<string>)
    requires |values| == |states| && forall i :: 0 <= i < |states| ==> values[i] == Some(states[i])
    ensures Readable(values) == states
  {
    if values != [] {
      AllReadable(values[1..], states[1..]);
      assert states == [states[0]] + states[1..];
    }
  }

  /** A request with exactly one readable parent has its context, with all its states joined; any other has none. */
  lemma HeadersMean(h: Headers, states: seq<string>)
    requires |Values(h, "tracestate")| == |states| && forall i :: 0 <= i < |states| ==> h["tracestate"][i] == Some(states[i])
    ensures FromHeaders(h) ==
      if "traceparent" in h && |h["traceparent"]| == 1 && h["traceparent"][0].Some?
      then Parse(h["traceparent"][0].value, Join(',', states)) else None
  {
    AllReadable(Values(h, "tracestate"), states);
  }
}
