/**
The create policy: field names of a create request are compared under Unicode case
folding, must be unambiguous under it, and must come from a fixed list.
*/
module CaseFolding {
  import opened Sequences
  import opened Wrappers

  /**
   * Unicode's simple case folding: each character's orbit, the characters it is equal to but for case, and
   * the step that runs through an orbit upwards and from its greatest element back to its least.
   */
  datatype Folding = Folding(orbit: char -> set<char>, next: char -> char)

  ghost function Least(s: set<char>): (m: char)
    requires s != {}
    ensures m in s && forall x | x in s :: m <= x
  {
    var x :| x in s;
    if s == {x} then x
    else
      assert s - {x} != {};
      var m := Least(s - {x});
      assert s == s - {x} + {x};
      if x <= m then x else m
  }

  function Above(s: set<char>, r: char): set<char> {
    set x | x in s && x > r
  }

  ghost predicate Lawful(f: Folding) {
    && (forall r :: r in f.orbit(r))
    && (forall r, s :: s in f.orbit(r) ==> f.orbit(s) == f.orbit(r))
    && (forall r :: f.next(r) == Least(if Above(f.orbit(r), r) == {} then f.orbit(r) else Above(f.orbit(r), r)))
  }

  predicate EqualFold(f: Folding, a: string, b: string) {
    |a| == |b| && forall i | 0 <= i < |a| :: b[i] in f.orbit(a[i])
  }

  // ---------------------------------------------------------------------------
  // foldName
  // ---------------------------------------------------------------------------

  ghost function FoldOf(f: Folding, r: char): char
    requires Lawful(f)
  {
    Least(f.orbit(r))
  }

  ghost function FoldName(f: Folding, s: string): (t: string)
    requires Lawful(f)
    ensures |t| == |s| && forall i | 0 <= i < |s| :: t[i] == FoldOf(f, s[i])
  {
    if s == [] then [] else FoldName(f, s[..|s| - 1]) + [FoldOf(f, s[|s| - 1])]
  }

  lemma SameFoldIffSameOrbit(f: Folding, r: char, s: char)
    requires Lawful(f)
    ensures FoldOf(f, r) == FoldOf(f, s) <==> s in f.orbit(r)
  {
    if FoldOf(f, r) == FoldOf(f, s) {
      var m := FoldOf(f, r);
      assert m in f.orbit(r) && m in f.orbit(s);
      assert f.orbit(m) == f.orbit(r) && f.orbit(m) == f.orbit(s);
      assert s in f.orbit(s);
    }
  }

  /** foldName identifies exactly the names that are equal under pairwise folding. */
  lemma FoldNameDecidesEqualFold(f: Folding, a: string, b: string)
    requires Lawful(f)
    ensures FoldName(f, a) == FoldName(f, b) <==> EqualFold(f, a, b)
  {
    if |a| == |b| {
      forall i | 0 <= i < |a| ensures FoldName(f, a)[i] == FoldName(f, b)[i] <==> b[i] in f.orbit(a[i]) {
        SameFoldIffSameOrbit(f, a[i], b[i]);
      }
    }
  }

  /** Folding is an equivalence of names. */
  lemma EqualFoldIsAnEquivalence(f: Folding, a: string, b: string, c: string)
    requires Lawful(f)
    ensures EqualFold(f, a, a)
    ensures EqualFold(f, a, b) ==> EqualFold(f, b, a)
    ensures EqualFold(f, a, b) && EqualFold(f, b, c) ==> EqualFold(f, a, c)
  {
    FoldNameDecidesEqualFold(f, a, b);
    FoldNameDecidesEqualFold(f, b, c);
    FoldNameDecidesEqualFold(f, a, c);
    FoldNameDecidesEqualFold(f, b, a);
    FoldNameDecidesEqualFold(f, a, a);
  }

  /** The rune loop: it climbs the orbit until it wraps round, which it does at the least element. */
  method FoldRune(f: Folding, start: char) returns (folded: char)
    requires Lawful(f)
    ensures folded == FoldOf(f, start)
  {
    var r := start;
    while true
      invariant r in f.orbit(start)
      decreases |Above(f.orbit(start), r)|
    {
      assert f.orbit(r) == f.orbit(start);
      var next := f.next(r);
      if next <= r {
        return next;
      }
      Climbs(f.orbit(start), r, next);
      r := next;
    }
  }

  lemma Climbs(orbit: set<char>, r: char, next: char)
    requires next in orbit && r < next
    ensures |Above(orbit, next)| < |Above(orbit, r)|
  {
    assert Above(orbit, next) <= Above(orbit, r) - {next};
    Fewer(Above(orbit, next), Above(orbit, r) - {next});
  }

  lemma {:induction false} Fewer(a: set<char>, b: set<char>)
    requires a <= b
    ensures |a| <= |b|
  {
    if a != {} {
      var x :| x in a;
      Fewer(a - {x}, b - {x});
    }
  }

  method FoldedName(f: Folding, s: string) returns (folded: string)
    requires Lawful(f)
    ensures folded == FoldName(f, s)
  {
    folded := [];
    for i := 0 to |s|
      invariant folded == FoldName(f, s[..i])
    {
      var r := FoldRune(f, s[i]);
      assert s[..i + 1][..i] == s[..i];
      folded := folded + [r];
    }
    assert s[..|s|] == s;
  }

  // ---------------------------------------------------------------------------
  // rejectFoldedKeys
  // ---------------------------------------------------------------------------

  const SNAPSHOT := "snapshot"

  /** No two of the names fold together, and the one that matters is spelled exactly. */
  ghost predicate Unambiguous(f: Folding, keys: set<string>) {
    && (forall k | k in keys && EqualFold(f, k, SNAPSHOT) :: k == SNAPSHOT)
    && (forall k, l | k in keys && l in keys && EqualFold(f, k, l) :: k == l)
  }

  /** A map's keys in some order of iteration. */
  ghost predicate Enumerates(order: seq<string>, keys: set<string>) {
    NoRepeats(order) && forall k :: k in order <==> k in keys
  }

  function Upto(order: seq<string>, i: nat): set<string>
    requires i <= |order|
  {
    set k | k in order[..i]
  }

  /** The names seen so far are unambiguous, and the map holds each under its folded form. */
  ghost predicate Recorded(f: Folding, done: set<string>, seen: map<string, string>)
    requires Lawful(f)
  {
    && Unambiguous(f, done)
    && (forall k | k in done :: FoldName(f, k) in seen && seen[FoldName(f, k)] == k)
    && (forall n | n in seen :: seen[n] in done && FoldName(f, seen[n]) == n)
  }

  lemma RecordOne(f: Folding, done: set<string>, seen: map<string, string>, k: string)
    requires Lawful(f) && Recorded(f, done, seen) && k !in done && (EqualFold(f, k, SNAPSHOT) ==> k == SNAPSHOT)
    ensures FoldName(f, k) !in seen ==> Recorded(f, done + {k}, seen[FoldName(f, k) := k])
    ensures FoldName(f, k) in seen ==> seen[FoldName(f, k)] in done && EqualFold(f, k, seen[FoldName(f, k)])
  {
    hide FoldName, EqualFold, Lawful;
    if FoldName(f, k) in seen {
      FoldNameDecidesEqualFold(f, k, seen[FoldName(f, k)]);
    } else {
      forall l | l in done ensures !EqualFold(f, k, l) && !EqualFold(f, l, k) {
        FoldNameDecidesEqualFold(f, k, l);
        FoldNameDecidesEqualFold(f, l, k);
      }
    }
  }

  method RejectFoldedKeys(f: Folding, keys: set<string>, order: seq<string>) returns (ok: bool)
    requires Lawful(f) && Enumerates(order, keys)
    ensures ok <==> Unambiguous(f, keys)
  {
    hide FoldName, EqualFold, Lawful;
    var seen: map<string, string> := map[];
    for i := 0 to |order|
      invariant Recorded(f, Upto(order, i), seen)
    {
      hide Recorded;
      var k := order[i];
      assert Upto(order, i + 1) == Upto(order, i) + {k} by {
        assert order[..i + 1] == order[..i] + [k];
      }
      assert k in keys && k !in Upto(order, i);
      var variant := IsFolded(f, k, SNAPSHOT);
      if variant && k != SNAPSHOT {
        return false;
      }
      var folded := FoldedName(f, k);
      RecordOne(f, Upto(order, i), seen, k);
      if folded in seen {
        assert seen[folded] in keys;
        return false;
      }
      seen := seen[folded := k];
    }
    assert Upto(order, |order|) == keys;
    return true;
  }

  method IsFolded(f: Folding, a: string, b: string) returns (same: bool)
    ensures same <==> EqualFold(f, a, b)
  {
    if |a| != |b| {
      return false;
    }
    for i := 0 to |a|
      invariant forall j | 0 <= j < i :: b[j] in f.orbit(a[j])
    {
      if b[i] !in f.orbit(a[i]) {
        return false;
      }
    }
    return true;
  }

  // ---------------------------------------------------------------------------
  // requireSnapshotCreate
  // ---------------------------------------------------------------------------

  /** A field's JSON value, as far as the policy looks into it. */
  datatype Json = Null | Text(text: string) | Other

  const BANNED := ["cpu", "memory", "disk", "gpu", "image", "class", "buildinfo"]

  const CREATE_FIELDS := [
    "snapshot", "name", "env", "labels", "sealed", "seal_id", "publicPorts",
    "user", "target", "networkBlockAll", "networkAllowList",
    "public", "autoStopInterval", "autoArchiveInterval", "autoDeleteInterval", "volumes"]

  /** Reading a JSON value into a Go string: null leaves it empty. */
  function AsString(v: Json): Option<string> {
    match v
    case Null => Some("")
    case Text(text) => Some(text)
    case Other => None
  }

  /** unicode.IsSpace. */
  predicate IsSpace(c: char) {
    var n := c as int;
    0x09 <= n <= 0x0d || n == 0x20 || n == 0x85 || n == 0xa0 || n == 0x1680 || 0x2000 <= n <= 0x200a ||
    n == 0x2028 || n == 0x2029 || n == 0x202f || n == 0x205f || n == 0x3000
  }

  predicate Blank(s: string) {
    forall c | c in s :: IsSpace(c)
  }

  ghost predicate FoldsInto(f: Folding, k: string, fields: seq<string>) {
    exists i | 0 <= i < |fields| :: EqualFold(f, k, fields[i])
  }

  predicate GoodName(v: Json) {
    AsString(v).Some? && '.' !in AsString(v).value
  }

  predicate GoodSnapshot(v: Json) {
    AsString(v).Some? && !Blank(AsString(v).value)
  }

  /** The policy: one exact, non-blank snapshot, listed fields only, each of one spelling, and a name without a dot. */
  ghost predicate Allowed(f: Folding, m: map<string, Json>) {
    && Unambiguous(f, m.Keys)
    && (forall k | k in m :: !FoldsInto(f, k, BANNED) && FoldsInto(f, k, CREATE_FIELDS))
    && (forall k | k in m && EqualFold(f, k, "name") :: GoodName(m[k]))
    && SNAPSHOT in m && GoodSnapshot(m[SNAPSHOT])
  }

  method IsListed(f: Folding, k: string, fields: seq<string>) returns (listed: bool)
    ensures listed <==> FoldsInto(f, k, fields)
  {
    for i := 0 to |fields|
      invariant forall j | 0 <= j < i :: !EqualFold(f, k, fields[j])
    {
      var same := IsFolded(f, k, fields[i]);
      if same {
        return true;
      }
    }
    return false;
  }

  /** requireSnapshotCreate: it goes over the map three times, each time in an order of its own; `None` is not JSON. */
  method RequireSnapshotCreate(f: Folding, body: Option<map<string, Json>>, first: seq<string>, second: seq<string>,
                               third: seq<string>)
    returns (ok: bool)
    requires Lawful(f)
    requires body.Some? ==> Enumerates(first, body.value.Keys)
    requires body.Some? ==> Enumerates(second, body.value.Keys) && Enumerates(third, body.value.Keys)
    ensures ok <==> body.Some? && Allowed(f, body.value)
  {
    hide Lawful, EqualFold, FoldsInto, Unambiguous;
    if body.None? {
      return false;
    }
    var m := body.value;
    var unambiguous := RejectFoldedKeys(f, m.Keys, first);
    if !unambiguous {
      return false;
    }
    for i := 0 to |second|
      invariant forall k | k in second[..i] :: !FoldsInto(f, k, BANNED)
    {
      assert second[i] in m && second[..i + 1] == second[..i] + [second[i]];
      var banned := IsListed(f, second[i], BANNED);
      if banned {
        return false;
      }
    }
    assert second[..|second|] == second;
    for i := 0 to |third|
      invariant forall k | k in third[..i] :: FoldsInto(f, k, CREATE_FIELDS)
      invariant forall k | k in third[..i] && EqualFold(f, k, "name") :: k in m && GoodName(m[k])
    {
      var k := third[i];
      assert k in m && third[..i + 1] == third[..i] + [k];
      var listed := IsListed(f, k, CREATE_FIELDS);
      if !listed {
        return false;
      }
      var isName := IsFolded(f, k, "name");
      if isName {
        if !GoodName(m[k]) {
          return false;
        }
      }
    }
    assert third[..|third|] == third;
    return SNAPSHOT in m && GoodSnapshot(m[SNAPSHOT]);
  }

  /** The white space that trimming takes off. */
  lemma SpacesAre(c: char)
    ensures IsSpace(c) <==>
            c as int in {9, 10, 11, 12, 13, 32, 133, 160, 5760, 8192, 8193, 8194, 8195, 8196, 8197, 8198, 8199, 8200,
                         8201, 8202, 8232, 8233, 8239, 8287, 12288}
  {
  }

  /**
   * Where case does not come in: besides its snapshot, which must be a text with something in it, a body may have
   * one more field exactly when it is one of these fifteen, and a name must be null or a text without a dot.
   */
  lemma PlainBodies(f: Folding, snapshot: Json, k: string, v: Json)
    requires Lawful(f) && (forall c :: f.orbit(c) == {c}) && k != "snapshot"
    ensures Allowed(f, map["snapshot" := snapshot, k := v]) <==>
            && snapshot.Text? && (exists c | c in snapshot.text :: !IsSpace(c))
            && (k == "name" ==> v == Null || (v.Text? && '.' !in v.text))
            && k in ["name", "env", "labels", "sealed", "seal_id", "publicPorts", "user", "target", "networkBlockAll",
                     "networkAllowList", "public", "autoStopInterval", "autoArchiveInterval", "autoDeleteInterval",
                     "volumes"]
  {
    forall a, b ensures EqualFold(f, a, b) <==> a == b {
      PlainEqual(f, a, b);
    }
    hide EqualFold, Lawful;
    PlainBody(f, snapshot, k, v);
    hide Allowed;
    NotBanned();
  }

  lemma PlainBody(f: Folding, snapshot: Json, k: string, v: Json)
    requires (forall a, b :: EqualFold(f, a, b) <==> a == b) && k != SNAPSHOT
    ensures Allowed(f, map[SNAPSHOT := snapshot, k := v]) <==>
            && SNAPSHOT in CREATE_FIELDS && SNAPSHOT !in BANNED && GoodSnapshot(snapshot)
            && k in CREATE_FIELDS && k !in BANNED && (k == "name" ==> GoodName(v))
  {
    hide EqualFold;
    ListedIffIn(f, SNAPSHOT, CREATE_FIELDS);
    ListedIffIn(f, k, CREATE_FIELDS);
    ListedIffIn(f, SNAPSHOT, BANNED);
    ListedIffIn(f, k, BANNED);
    hide FoldsInto, GoodSnapshot, GoodName;
    assert map[SNAPSHOT := snapshot, k := v].Keys == {SNAPSHOT, k};
    assert |SNAPSHOT| != |"name"|;
  }

  lemma NotBanned()
    ensures forall k | k in CREATE_FIELDS :: k !in BANNED
    ensures SNAPSHOT in CREATE_FIELDS
  {
    assert CREATE_FIELDS[0] == SNAPSHOT;
  }

  lemma PlainEqual(f: Folding, a: string, b: string)
    requires forall c :: f.orbit(c) == {c}
    ensures EqualFold(f, a, b) <==> a == b
  {
  }

  lemma ListedIffIn(f: Folding, k: string, fields: seq<string>)
    requires forall a, b :: EqualFold(f, a, b) <==> a == b
    ensures FoldsInto(f, k, fields) <==> k in fields
  {
  }

  // ---------------------------------------------------------------------------
  // What the policy is for
  // ---------------------------------------------------------------------------

  /** A JSON object as it is written, field by field. */
  type Fields = seq<(string, Json)>

  /** Decoding into a map keeps the last value of each exact name. */
  function Decode(fields: Fields): (m: map<string, Json>)
    ensures forall k :: k in m <==> exists i | 0 <= i < |fields| :: fields[i].0 == k
  {
    if fields == [] then map[] else Decode(fields[..|fields| - 1])[fields[|fields| - 1].0 := fields[|fields| - 1].1]
  }

  /** Go's struct decoding keeps the last value of any name that folds into the field's. */
  function FoldingRead(f: Folding, fields: Fields, name: string): Option<Json> {
    if fields == [] then None
    else if EqualFold(f, fields[|fields| - 1].0, name) then Some(fields[|fields| - 1].1)
    else FoldingRead(f, fields[..|fields| - 1], name)
  }

  /** Daytona reads the exact name only. */
  function ExactRead(fields: Fields, name: string): Option<Json> {
    if name in Decode(fields) then Some(Decode(fields)[name]) else None
  }

  lemma {:induction false} ReadsAgree(f: Folding, fields: Fields, name: string)
    requires forall i | 0 <= i < |fields| && EqualFold(f, fields[i].0, name) :: fields[i].0 == name
    requires EqualFold(f, name, name)
    ensures FoldingRead(f, fields, name) == ExactRead(fields, name)
  {
    if fields != [] {
      ReadsAgree(f, fields[..|fields| - 1], name);
    }
  }

  /** Once a body is allowed, a folding read and an exact read see the same snapshot, and it is a proper one. */
  lemma SnapshotIsReadTheSame(f: Folding, fields: Fields)
    requires Lawful(f) && Allowed(f, Decode(fields))
    ensures FoldingRead(f, fields, SNAPSHOT) == ExactRead(fields, SNAPSHOT)
    ensures ExactRead(fields, SNAPSHOT).Some? && GoodSnapshot(ExactRead(fields, SNAPSHOT).value)
  {
    EqualFoldIsAnEquivalence(f, SNAPSHOT, SNAPSHOT, SNAPSHOT);
    forall i | 0 <= i < |fields| && EqualFold(f, fields[i].0, SNAPSHOT) ensures fields[i].0 == SNAPSHOT {
      assert fields[i].0 in Decode(fields).Keys;
    }
    ReadsAgree(f, fields, SNAPSHOT);
  }

  /** And no other field can be read in two ways: of every name that folds into it there is one spelling. */
  lemma FoldingReadHasOneSource(f: Folding, fields: Fields, name: string, spelling: string)
    requires Lawful(f) && Allowed(f, Decode(fields))
    requires spelling in Decode(fields) && EqualFold(f, spelling, name)
    ensures FoldingRead(f, fields, name) == Some(Decode(fields)[spelling])
  {
    EqualFoldIsAnEquivalence(f, spelling, spelling, spelling);
    forall i | 0 <= i < |fields| && EqualFold(f, fields[i].0, spelling) ensures fields[i].0 == spelling {
      assert fields[i].0 in Decode(fields).Keys;
    }
    ReadsAgree(f, fields, spelling);
    SameRead(f, fields, name, spelling);
  }

  lemma {:induction false} SameRead(f: Folding, fields: Fields, name: string, spelling: string)
    requires Lawful(f) && EqualFold(f, spelling, name)
    ensures FoldingRead(f, fields, name) == FoldingRead(f, fields, spelling)
  {
    if fields != [] {
      var k := fields[|fields| - 1].0;
      SameRead(f, fields[..|fields| - 1], name, spelling);
      EqualFoldIsAnEquivalence(f, k, name, spelling);
      EqualFoldIsAnEquivalence(f, k, spelling, name);
      EqualFoldIsAnEquivalence(f, spelling, name, name);
    }
  }
}
