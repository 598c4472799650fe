/** A definition out of many files, and a problem back to the file it is in
    (packages/cli/src/assemble/sources.ts, assemble.ts, resource-order.ts,
    packages/contracts/src/definition/errors.ts:16-24). */
module Sources {
  import opened Outcomes
  import opened Definitions
  import opened Paths
  import opened Validity
  import ActionUrls

  type File = string

  /** Which file wrote what is under a prefix of the composed definition. */
  datatype Source = Source(path: string, file: File)

  datatype Location = Location(file: File, path: string)

  // ---------------------------------------------------------------- location

  /** On segment boundaries only: `resources[1]` does not cover `resources[10]`. */
  predicate Covers(prefix: string, path: string) {
    prefix == "" || path == prefix || prefix + "." <= path || prefix + "[" <= path
  }

  /** The first of the longest prefixes that cover a path, among the first n. */
  function Best(sources: seq<Source>, path: string, n: nat): Option<Source>
    requires n <= |sources|
  {
    if n == 0 then None
    else
      var best := Best(sources, path, n - 1);
      if !Covers(sources[n - 1].path, path) then best
      else if best.None? || |sources[n - 1].path| > |best.value.path| then Some(sources[n - 1])
      else best
  }

  /** What is left of a path below a prefix; nothing left is the file itself. */
  function Below(prefix: string, path: string): string
    requires |prefix| <= |path|
  {
    var rest := path[|prefix|..];
    var remainder := if rest != "" && rest[0] == '.' then rest[1..] else rest;
    if remainder == "" then ROOT else remainder
  }

  lemma BestCovers(sources: seq<Source>, path: string, n: nat)
    requires n <= |sources|
    ensures Best(sources, path, n).Some? ==>
      Best(sources, path, n).value in sources && Covers(Best(sources, path, n).value.path, path) &&
      |Best(sources, path, n).value.path| <= |path|
  {
  }

  function Located(sources: seq<Source>, path: string): Location {
    var best := Best(sources, path, |sources|);
    BestCovers(sources, path, |sources|);
    if best.None? then Location(if sources == [] then "" else sources[0].file, path)
    else Location(best.value.file, Below(best.value.path, path))
  }

  method Locate(sources: seq<Source>, path: string) returns (location: Location)
    ensures location == Located(sources, path)
  {
    var best: Option<Source> := None;
    for n := 0 to |sources|
      invariant best == Best(sources, path, n)
    {
      var source := sources[n];
      if !Covers(source.path, path) { continue; }
      if best.None? || |source.path| > |best.value.path| {
        best := Some(source);
      }
    }
    if best.None? {
      return Location(if sources == [] then "" else sources[0].file, path);
    }
    BestCovers(sources, path, |sources|);
    return Location(best.value.file, Below(best.value.path, path));
  }

  // ------------------------------------------------------------ written paths

  /** Named by something, as every path in a definition is. */
  ghost predicate Keyed(path: Path) {
    forall i :: 0 <= i < |path| && path[i].Name? ==> path[i].name != ""
  }

  function ValueOf(s: string): nat {
    if s == "" then 0
    else
      var d := s[|s| - 1];
      10 * ValueOf(s[..|s| - 1]) + if '0' <= d <= '9' then (d as int - '0' as int) else 0
  }

  lemma DigitValue(n: nat)
    requires n < 10
    ensures '0' <= DigitOf(n) <= '9' && DigitOf(n) as int - '0' as int == n
  {
    var digits := "0123456789";
    assert digits[0] == '0' && digits[1] == '1' && digits[2] == '2' && digits[3] == '3' && digits[4] == '4';
    assert digits[5] == '5' && digits[6] == '6' && digits[7] == '7' && digits[8] == '8' && digits[9] == '9';
  }

  /** A number is told apart from every other by its digits. */
  lemma {:induction false} DecimalReadsBack(n: nat)
    ensures ValueOf(Decimal(n)) == n
    ensures Decimal(n) != "" && forall c :: c in Decimal(n) ==> '0' <= c <= '9'
  {
    DigitValue(n % 10);
    if n < 10 {
      assert Decimal(n)[..0] == "";
    } else {
      DecimalReadsBack(n / 10);
      var whole := Decimal(n / 10);
      assert Decimal(n) == whole + [DigitOf(n % 10)];
      assert Decimal(n)[..|whole|] == whole;
    }
  }

  /** What a path below another is written as: an index as it stands, a name
      after a dot, and nothing for nothing. */
  function Tail(inner: Path): string {
    if inner == [] then "" else if inner[0].Index? then Joined(inner) else "." + Joined(inner)
  }

  lemma JoinedUnfolds(path: Path)
    requires path != []
    ensures Joined(path) == Appended(Joined(path[..|path| - 1]), path[|path| - 1])
  {
  }

  lemma {:induction false} JoinedBelow(outer: Path, inner: Path)
    requires outer != [] && Keyed(outer) && Keyed(inner)
    ensures Joined(outer + inner) == Joined(outer) + Tail(inner)
    decreases |inner|
  {
    hide Joined, Appended;
    if inner == [] {
      assert outer + inner == outer;
      assert Joined(outer) + "" == Joined(outer);
    } else {
      hide Tail;
      var n := |inner| - 1;
      var init, last := inner[..n], inner[n];
      var path := outer + inner;
      assert path[..|path| - 1] == outer + init && path[|path| - 1] == last;
      JoinedUnfolds(path);
      JoinedBelow(outer, init);
      JoinedIsThere(outer);
      OneMoreSegment(Joined(outer), init, last);
      assert inner == init + [last];
    }
  }

  /** What a segment adds to a text that is there already. */
  function Suffix(segment: Segment): string {
    match segment
    case Index(i) => "[" + Decimal(i) + "]"
    case Name(name) => "." + name
  }

  lemma AppendedIs(text: string, segment: Segment)
    requires text != ""
    ensures Appended(text, segment) == text + Suffix(segment)
  {
    hide Decimal;
    if segment.Index? {
      assert text + "[" + Decimal(segment.index) + "]" == text + ("[" + Decimal(segment.index) + "]");
    }
  }

  lemma FirstSegment(segment: Segment)
    ensures Tail([segment]) == Suffix(segment)
  {
    hide Decimal;
    assert [segment][..0] == [];
    assert Joined([segment]) == Appended("", segment);
    if segment.Index? {
      assert "" + "[" + Decimal(segment.index) + "]" == Suffix(segment);
    }
  }

  lemma TailGrows(init: Path, last: Segment)
    requires Keyed(init)
    ensures Tail(init + [last]) == Tail(init) + Suffix(last)
  {
    if init == [] {
      assert init + [last] == [last];
      FirstSegment(last);
      assert "" + Suffix(last) == Suffix(last);
    } else {
      hide Suffix, Appended, Joined;
      var path := init + [last];
      assert path[..|path| - 1] == init && path[|path| - 1] == last && path[0] == init[0];
      JoinedUnfolds(path);
      JoinedIsThere(init);
      AppendedIs(Joined(init), last);
      assert Joined(path) == Joined(init) + Suffix(last);
      assert "." + (Joined(init) + Suffix(last)) == ("." + Joined(init)) + Suffix(last);
    }
  }

  lemma OneMoreSegment(text: string, init: Path, last: Segment)
    requires text != "" && Keyed(init)
    ensures Appended(text + Tail(init), last) == text + Tail(init + [last])
  {
    hide Suffix, Appended, Tail, Joined;
    AppendedIs(text + Tail(init), last);
    TailGrows(init, last);
    assert (text + Tail(init)) + Suffix(last) == text + (Tail(init) + Suffix(last));
  }

  lemma {:induction false} JoinedIsThere(path: Path)
    requires path != [] && Keyed(path)
    ensures Joined(path) != ""
    ensures path[0].Name? ==> Joined(path)[0] == path[0].name[0]
    ensures path[0].Index? ==> Joined(path)[0] == '['
  {
    var n := |path| - 1;
    if n > 0 {
      assert path[..n][0] == path[0];
      JoinedIsThere(path[..n]);
    }
  }

  /** The prefix a resource's own file supplies. */
  function PrefixOf(index: nat): string {
    "resources[" + Decimal(index) + "]"
  }

  /** The app's file first, then one for each resource, in the order composed. */
  function SourcesOf(app: File, files: seq<File>): (sources: seq<Source>)
    ensures |sources| == |files| + 1 && sources[0] == Source("", app)
    ensures forall i :: 0 <= i < |files| ==> sources[i + 1] == Source(PrefixOf(i), files[i])
  {
    [Source("", app)] + seq(|files|, i requires 0 <= i < |files| => Source(PrefixOf(i), files[i]))
  }

  lemma ResourcePathIs(index: nat, inner: Path)
    requires Keyed(inner)
    ensures Formatted([Name("resources"), Index(index)] + inner) == PrefixOf(index) + Tail(inner)
  {
    var outer := [Name("resources"), Index(index)];
    assert outer[..1] == [Name("resources")] && [Name("resources")][..0] == [];
    assert Joined([Name("resources")]) == "resources";
    assert Joined(outer) == PrefixOf(index);
    JoinedBelow(outer, inner);
  }

  lemma BracketAfterDigits(a: string, rest: string)
    requires forall c :: c in a ==> '0' <= c <= '9'
    ensures ActionUrls.IndexOf(a + "]" + rest, ']') == |a|
  {
    hide ActionUrls.IndexOf;
    var s := a + "]" + rest;
    assert s[|a|] == ']';
    assert forall i :: 0 <= i < |a| ==> s[i] == a[i] && a[i] in a;
  }

  lemma DigitsEndAtTheBracket(a: string, b: string, ra: string, rb: string)
    requires forall c :: c in a ==> '0' <= c <= '9'
    requires forall c :: c in b ==> '0' <= c <= '9'
    requires a + "]" + ra == b + "]" + rb
    ensures a == b
  {
    hide ActionUrls.IndexOf;
    BracketAfterDigits(a, ra);
    BracketAfterDigits(b, rb);
    assert a == (a + "]" + ra)[..|a|] && b == (b + "]" + rb)[..|b|];
  }

  /** A resource's prefix covers its own paths, and no other resource's. */
  lemma OnlyItsOwnIsCovered(k: nat, index: nat, tail: string)
    requires tail == "" || tail[0] == '.' || tail[0] == '['
    ensures Covers(PrefixOf(k), PrefixOf(index) + tail) <==> k == index
  {
    hide PrefixOf;
    var path := PrefixOf(index) + tail;
    if k == index {
      if tail == "" {
        assert path == PrefixOf(index);
      } else {
        assert PrefixOf(k) + [tail[0]] <= path;
      }
    } else if Covers(PrefixOf(k), path) {
      CoveredStarts(PrefixOf(k), path);
      PrefixDecides(k, index, tail);
    }
  }

  lemma CoveredStarts(prefix: string, path: string)
    requires Covers(prefix, path)
    ensures prefix <= path
  {
    if prefix + "." <= path {
      assert prefix <= prefix + ".";
    } else if prefix + "[" <= path {
      assert prefix <= prefix + "[";
    }
  }

  lemma PrefixDecides(k: nat, index: nat, tail: string)
    requires PrefixOf(k) <= PrefixOf(index) + tail
    ensures k == index
  {
    hide Decimal, ValueOf;
    DecimalReadsBack(k);
    DecimalReadsBack(index);
    var head, path := "resources[", PrefixOf(index) + tail;
    var rest := path[|PrefixOf(k)|..];
    assert path == PrefixOf(k) + rest;
    assert path[|head|..] == Decimal(k) + "]" + rest;
    assert path[|head|..] == Decimal(index) + "]" + tail;
    DigitsEndAtTheBracket(Decimal(k), Decimal(index), rest, tail);
  }

  lemma {:induction false} BestIsItsOwn(app: File, files: seq<File>, index: nat, tail: string, n: nat)
    requires index < |files| && n <= |files| + 1
    requires tail == "" || tail[0] == '.' || tail[0] == '['
    ensures var sources := SourcesOf(app, files);
            Best(sources, PrefixOf(index) + tail, n) ==
            if n == 0 then None else if n <= index + 1 then Some(sources[0]) else Some(sources[index + 1])
  {
    hide Covers;
    if n > 0 {
      BestIsItsOwn(app, files, index, tail, n - 1);
      var sources, path := SourcesOf(app, files), PrefixOf(index) + tail;
      if n == 1 {
        RootCoversAll(path);
      } else {
        OnlyItsOwnIsCovered(n - 2, index, tail);
      }
    }
  }

  lemma RootCoversAll(path: string)
    ensures Covers("", path)
  {
  }

  lemma BelowItsPrefix(index: nat, inner: Path)
    requires Keyed(inner)
    ensures Below(PrefixOf(index), PrefixOf(index) + Tail(inner)) == Formatted(inner)
  {
    var path := PrefixOf(index) + Tail(inner);
    assert path[|PrefixOf(index)|..] == Tail(inner);
    if inner != [] {
      JoinedIsThere(inner);
      if inner[0].Name? {
        assert ("." + Joined(inner))[1..] == Joined(inner);
      }
    }
  }

  /** A problem below a resource is told in that resource's own file, at the path
      it has there. */
  lemma LocationsRoundTrip(app: File, files: seq<File>, index: nat, inner: Path)
    requires index < |files| && Keyed(inner)
    ensures Located(SourcesOf(app, files), Formatted([Name("resources"), Index(index)] + inner))
            == Location(files[index], Formatted(inner))
  {
    hide Best, Below, Covers, Decimal, Joined;
    ResourcePathIs(index, inner);
    TailStarts(inner);
    BestIsItsOwn(app, files, index, Tail(inner), |files| + 1);
    BelowItsPrefix(index, inner);
  }

  lemma TailStarts(inner: Path)
    requires Keyed(inner)
    ensures Tail(inner) == "" || Tail(inner)[0] == '.' || Tail(inner)[0] == '['
  {
    if inner != [] {
      JoinedIsThere(inner);
    }
  }

  // ------------------------------------------------------------- composition

  /** First mention wins. */
  function Mentioned(keys: seq<Key>): seq<Key> {
    if keys == [] then []
    else
      var init, last := Mentioned(keys[..|keys| - 1]), keys[|keys| - 1];
      if last in init then init else init + [last]
  }

  method NavigationOrder(navigation: seq<seq<Key>>) returns (keys: seq<Key>)
    ensures keys == Mentioned(Listed(navigation))
  {
    keys := [];
    for g := 0 to |navigation|
      invariant keys == Mentioned(Listed(navigation[..g]))
    {
      assert navigation[..g + 1][..g] == navigation[..g];
      var group := navigation[g];
      assert Listed(navigation[..g]) + group[..0] == Listed(navigation[..g]);
      for i := 0 to |group|
        invariant keys == Mentioned(Listed(navigation[..g]) + group[..i])
      {
        var before := Listed(navigation[..g]) + group[..i];
        assert Listed(navigation[..g]) + group[..i + 1] == before + [group[i]];
        assert (before + [group[i]])[..|before|] == before;
        if group[i] !in keys {
          keys := keys + [group[i]];
        }
      }
      assert group[..|group|] == group;
    }
    assert navigation[..|navigation|] == navigation;
  }

  function Kept(keys: seq<Key>, from: seq<Key>): seq<Key> {
    if keys == [] then []
    else Kept(keys[..|keys| - 1], from) + if keys[|keys| - 1] in from then [keys[|keys| - 1]] else []
  }

  function Dropped(keys: seq<Key>, from: seq<Key>): seq<Key> {
    if keys == [] then []
    else Dropped(keys[..|keys| - 1], from) + if keys[|keys| - 1] in from then [] else [keys[|keys| - 1]]
  }

  /** In the order `before` puts two keys in. */
  function Placed(key: Key, sorted: seq<Key>, before: (Key, Key) -> bool): seq<Key> {
    if sorted == [] || before(key, sorted[0]) then [key] + sorted
    else [sorted[0]] + Placed(key, sorted[1..], before)
  }

  function SortedKeys(keys: seq<Key>, before: (Key, Key) -> bool): seq<Key> {
    if keys == [] then [] else Placed(keys[0], SortedKeys(keys[1..], before), before)
  }

  /** What the navigation names, as it names it; then the rest, by key. */
  function OrderedKeys(named: seq<Key>, available: seq<Key>, before: (Key, Key) -> bool): seq<Key> {
    var listed := Kept(named, available);
    listed + SortedKeys(Dropped(available, listed), before)
  }

  lemma {:induction false} MentionedOnce(keys: seq<Key>)
    ensures DistinctKeys(Mentioned(keys))
    ensures forall k :: k in Mentioned(keys) <==> k in keys
    ensures DistinctKeys(keys) ==> Mentioned(keys) == keys
  {
    if keys != [] {
      var init := keys[..|keys| - 1];
      assert keys == init + [keys[|keys| - 1]];
      MentionedOnce(init);
    }
  }

  lemma {:induction false} KeptAreFrom(keys: seq<Key>, from: seq<Key>)
    ensures forall k :: k in Kept(keys, from) <==> k in keys && k in from
    ensures DistinctKeys(keys) ==> DistinctKeys(Kept(keys, from))
    ensures (forall k :: k in keys ==> k in from) ==> Kept(keys, from) == keys
  {
    if keys != [] {
      var init := keys[..|keys| - 1];
      assert keys == init + [keys[|keys| - 1]];
      KeptAreFrom(init, from);
    }
  }

  lemma {:induction false} DroppedAreNot(keys: seq<Key>, from: seq<Key>)
    ensures forall k :: k in Dropped(keys, from) <==> k in keys && k !in from
    ensures DistinctKeys(keys) ==> DistinctKeys(Dropped(keys, from))
    ensures (forall k :: k in keys ==> k in from) ==> Dropped(keys, from) == []
  {
    if keys != [] {
      var init := keys[..|keys| - 1];
      assert keys == init + [keys[|keys| - 1]];
      DroppedAreNot(init, from);
    }
  }

  lemma {:induction false} PlacedIsAdded(key: Key, sorted: seq<Key>, before: (Key, Key) -> bool)
    ensures multiset(Placed(key, sorted, before)) == multiset(sorted) + multiset{key}
  {
    if sorted != [] && !before(key, sorted[0]) {
      PlacedIsAdded(key, sorted[1..], before);
      assert sorted == [sorted[0]] + sorted[1..];
    }
  }

  lemma {:induction false} SortingPermutes(keys: seq<Key>, before: (Key, Key) -> bool)
    ensures multiset(SortedKeys(keys, before)) == multiset(keys)
  {
    if keys != [] {
      SortingPermutes(keys[1..], before);
      PlacedIsAdded(keys[0], SortedKeys(keys[1..], before), before);
      assert keys == [keys[0]] + keys[1..];
    }
  }

  /** A comparison of keys that leaves no two unranked, and goes through. */
  ghost predicate Ranks(before: (Key, Key) -> bool) {
    && (forall a, b :: before(a, b) || before(b, a))
    && (forall a, b, c :: before(a, b) && before(b, c) ==> before(a, c))
  }

  ghost predicate Sorted(keys: seq<Key>, before: (Key, Key) -> bool) {
    forall i, j :: 0 <= i < j < |keys| ==> before(keys[i], keys[j])
  }

  lemma {:induction false} PlacedInOrder(key: Key, sorted: seq<Key>, before: (Key, Key) -> bool)
    requires Ranks(before) && Sorted(sorted, before)
    ensures Sorted(Placed(key, sorted, before), before)
    ensures forall k :: k in Placed(key, sorted, before) ==> k == key || k in sorted
  {
    if sorted != [] && !before(key, sorted[0]) {
      PlacedInOrder(key, sorted[1..], before);
      var rest := Placed(key, sorted[1..], before);
      forall j | 0 <= j < |rest| ensures before(sorted[0], rest[j]) {
        assert rest[j] in rest;
        if rest[j] != key {
          var i :| 0 <= i < |sorted[1..]| && sorted[1..][i] == rest[j];
          assert sorted[i + 1] == rest[j];
        }
      }
    }
  }

  /** What the navigation does not mention comes after, sorted by key. */
  lemma {:induction false} TheRestIsSorted(keys: seq<Key>, before: (Key, Key) -> bool)
    requires Ranks(before)
    ensures Sorted(SortedKeys(keys, before), before)
  {
    if keys != [] {
      TheRestIsSorted(keys[1..], before);
      PlacedInOrder(keys[0], SortedKeys(keys[1..], before), before);
    }
  }

  lemma {:induction false} DistinctOccurOnce(keys: seq<Key>, k: Key)
    requires DistinctKeys(keys)
    ensures multiset(keys)[k] == if k in keys then 1 else 0
  {
    if keys != [] {
      var init, last := keys[..|keys| - 1], keys[|keys| - 1];
      assert keys == init + [last];
      DistinctOccurOnce(init, k);
    }
  }

  /** The composed resources are the files, each once, however the navigation is
      written. */
  lemma CompositionIsAPermutation(navigation: seq<seq<Key>>, available: seq<Key>, before: (Key, Key) -> bool)
    requires DistinctKeys(available)
    ensures multiset(OrderedKeys(Mentioned(Listed(navigation)), available, before)) == multiset(available)
  {
    var named := Mentioned(Listed(navigation));
    var listed := Kept(named, available);
    var rest := Dropped(available, listed);
    MentionedOnce(Listed(navigation));
    KeptAreFrom(named, available);
    DroppedAreNot(available, listed);
    SortingPermutes(rest, before);
    var all := OrderedKeys(named, available, before);
    forall k ensures multiset(all)[k] == multiset(available)[k] {
      DistinctOccurOnce(listed, k);
      DistinctOccurOnce(rest, k);
      DistinctOccurOnce(available, k);
      assert multiset(all)[k] == multiset(listed)[k] + multiset(SortedKeys(rest, before))[k];
    }
  }

  /** And when the groups list each resource exactly once, which is when the
      navigation checks report nothing, they are composed in the order listed. */
  lemma CompositionFollowsTheNavigation(
    definition: Definition, available: seq<Key>, before: (Key, Key) -> bool)
    requires NavigationMatches(definition)
    requires forall k :: k in available <==> k in IndexResources(definition.resources)
    ensures OrderedKeys(Mentioned(Listed(definition.navigation)), available, before) == Listed(definition.navigation)
  {
    var listed := Listed(definition.navigation);
    MentionedOnce(listed);
    KeptAreFrom(listed, available);
    DroppedAreNot(available, listed);
  }

  /** Where a key is first listed. */
  function FirstAt(keys: seq<Key>, key: Key): nat {
    if keys == [] || keys[0] == key then 0 else 1 + FirstAt(keys[1..], key)
  }

  lemma {:induction false} FirstAtEnd(keys: seq<Key>, last: Key, key: Key)
    ensures key in keys ==> FirstAt(keys + [last], key) == FirstAt(keys, key) < |keys|
    ensures key !in keys && key == last ==> FirstAt(keys + [last], key) == |keys|
  {
    if keys != [] {
      FirstAtEnd(keys[1..], last, key);
      assert (keys + [last])[1..] == keys[1..] + [last];
      assert keys == [keys[0]] + keys[1..];
    } else {
      assert keys + [last] == [last];
    }
  }

  /** Each key is first listed before the ones after it. */
  ghost predicate AsListed(keys: seq<Key>, all: seq<Key>) {
    forall i, j :: 0 <= i < j < |keys| ==> FirstAt(all, keys[i]) < FirstAt(all, keys[j])
  }

  /** Of what the navigation names, the first mentions come in its own order. */
  lemma {:induction false} MentionedInOrder(keys: seq<Key>)
    ensures AsListed(Mentioned(keys), keys)
  {
    if keys != [] {
      var init, last := keys[..|keys| - 1], keys[|keys| - 1];
      assert keys == init + [last];
      MentionedInOrder(init);
      MentionedOnce(init);
      var all := Mentioned(keys);
      forall i, j | 0 <= i < j < |all| ensures FirstAt(keys, all[i]) < FirstAt(keys, all[j]) {
        assert all[i] in Mentioned(init);
        FirstAtEnd(init, last, all[i]);
        FirstAtEnd(init, last, all[j]);
        if j < |Mentioned(init)| {
          assert all[j] in Mentioned(init);
        }
      }
    }
  }

  lemma AsListedBefore(keys: seq<Key>, all: seq<Key>)
    requires keys != [] && AsListed(keys, all)
    ensures AsListed(keys[..|keys| - 1], all)
    ensures forall k :: k in keys[..|keys| - 1] ==> FirstAt(all, k) < FirstAt(all, keys[|keys| - 1])
  {
    hide FirstAt;
  }

  lemma {:induction false} KeptInOrder(keys: seq<Key>, from: seq<Key>, all: seq<Key>, i: nat, j: nat)
    requires AsListed(keys, all) && i < j < |Kept(keys, from)|
    ensures FirstAt(all, Kept(keys, from)[i]) < FirstAt(all, Kept(keys, from)[j])
  {
    hide FirstAt, AsListed;
    var init := keys[..|keys| - 1];
    AsListedBefore(keys, all);
    if j < |Kept(init, from)| {
      KeptInOrder(init, from, all, i, j);
    } else {
      KeptAreFrom(init, from);
      assert Kept(keys, from)[i] in Kept(init, from);
    }
  }

  /** However the navigation is written: what it lists comes first, in the order
      it is first listed; what it leaves out comes after, by key. */
  lemma TheListedComeFirst(navigation: seq<seq<Key>>, available: seq<Key>, before: (Key, Key) -> bool, i: nat, j: nat)
    requires Ranks(before)
    requires i < j < |OrderedKeys(Mentioned(Listed(navigation)), available, before)|
    ensures var listed, all := Listed(navigation), OrderedKeys(Mentioned(Listed(navigation)), available, before);
      if all[j] in listed then all[i] in listed && FirstAt(listed, all[i]) < FirstAt(listed, all[j])
      else all[i] in listed || before(all[i], all[j])
  {
    hide FirstAt, Mentioned, Kept, Dropped, SortedKeys, Listed;
    var listed := Listed(navigation);
    var named := Mentioned(listed);
    var kept := Kept(named, available);
    var rest := Dropped(available, kept);
    MentionedOnce(listed);
    MentionedInOrder(listed);
    if j < |kept| {
      KeptInOrder(named, available, listed, i, j);
    }
    KeptAreFrom(named, available);
    DroppedAreNot(available, kept);
    TheRestIsSorted(rest, before);
    SortingPermutes(rest, before);
    var sorted := SortedKeys(rest, before);
    forall n | 0 <= n < |sorted| ensures sorted[n] !in listed {
      assert sorted[n] in multiset(sorted);
      assert sorted[n] in rest;
    }
  }
}
