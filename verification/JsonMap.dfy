/** The members of an object as a std::map: sorted by key, and the last member with a key counts. */
module JsonMap {
  import opened Json
  import opened JsonGrammar
  import opened JsonSyntax

  /** Two strings part at `k`: there the first one ends or has the smaller byte. */
  predicate Parts(a: string, b: string, k: nat) {
    k <= |a| && k < |b| && a[..k] == b[..k] && (k == |a| || a[k] < b[k])
  }

  /** The lexicographic order of byte strings. */
  ghost predicate Before(a: string, b: string) { exists k: nat :: Parts(a, b, k) }

  lemma {:induction false} LessIsBefore(a: string, b: string)
    ensures Less(a, b) <==> Before(a, b)
  {
    if b != "" {
      if a == "" || a[0] < b[0] {
        assert Parts(a, b, 0);
      } else if a[0] == b[0] {
        LessIsBefore(a[1..], b[1..]);
        forall k: nat | Parts(a[1..], b[1..], k) ensures Parts(a, b, k + 1) {
          PartsLater(a, b, k);
        }
        forall k: nat | Parts(a, b, k) ensures k > 0 && Parts(a[1..], b[1..], k - 1) {
          if k > 0 { PartsLater(a, b, k - 1); }
        }
      } else {
        forall k: nat ensures !Parts(a, b, k) {
          SameStart(a, b, k);
        }
      }
    }
  }

  lemma SameStart(a: string, b: string, k: nat)
    ensures Parts(a, b, k) && k > 0 ==> a[0] == b[0]
  {
    if Parts(a, b, k) && k > 0 { assert a[0] == a[..k][0] && b[0] == b[..k][0]; }
  }

  lemma PartsLater(a: string, b: string, k: nat)
    requires a != "" && b != "" && a[0] == b[0]
    ensures Parts(a[1..], b[1..], k) <==> Parts(a, b, k + 1)
  {
    if k < |a| && k + 1 < |b| {
      assert a[..k + 1] == [a[0]] + a[1..][..k] && b[..k + 1] == [b[0]] + b[1..][..k];
      if a[..k + 1] == b[..k + 1] { assert a[..k + 1][1..] == a[1..][..k] && b[..k + 1][1..] == b[1..][..k]; }
    }
  }

  lemma {:induction false} LessTotal(a: string, b: string)
    ensures a == b || Less(a, b) || Less(b, a)
    ensures !(Less(a, b) && Less(b, a)) && !Less(a, a)
  {
    if a != "" && b != "" && a[0] == b[0] { LessTotal(a[1..], b[1..]); }
    if a != "" { LessTotal(a[1..], a[1..]); }
    if a != "" && b != "" && a[1..] == b[1..] && a[0] == b[0] { assert a == [a[0]] + a[1..] && b == [b[0]] + b[1..]; }
  }

  lemma {:induction false} LessTransitive(a: string, b: string, c: string)
    requires Less(a, b) && Less(b, c)
    ensures Less(a, c)
  {
    if a != "" && a[0] == b[0] == c[0] { LessTransitive(a[1..], b[1..], c[1..]); }
  }

  /** Entries in the order of their keys, without duplicates. */
  ghost predicate Sorted(m: seq<Entry>) { forall i, j :: 0 <= i < j < |m| ==> Before(m[i].key, m[j].key) }

  ghost predicate Ordered(m: seq<Entry>) { forall i, j :: 0 <= i < j < |m| ==> Less(m[i].key, m[j].key) }

  lemma OrderedIsSorted(m: seq<Entry>)
    ensures Ordered(m) <==> Sorted(m)
  {
    forall i, j | 0 <= i < j < |m| ensures Less(m[i].key, m[j].key) <==> Before(m[i].key, m[j].key) {
      LessIsBefore(m[i].key, m[j].key);
    }
    hide Less, Before;
  }

  ghost predicate Above(key: string, m: seq<Entry>) { forall k :: 0 <= k < |m| ==> Less(key, m[k].key) }

  lemma Headed(e: Entry, m: seq<Entry>)
    requires Ordered(m) && Above(e.key, m)
    ensures Ordered([e] + m)
  {
    hide Less;
  }

  lemma TailAbove(m: seq<Entry>)
    requires Ordered(m) && m != []
    ensures Ordered(m[1..]) && Above(m[0].key, m[1..]) && m == [m[0]] + m[1..]
  {
    hide Less;
  }

  lemma AllAbove(key: string, m: seq<Entry>)
    requires Ordered(m) && m != [] && Less(key, m[0].key)
    ensures Above(key, m)
  {
    forall k | 0 <= k < |m| ensures Less(key, m[k].key) {
      if k > 0 { LessTransitive(key, m[0].key, m[k].key); }
    }
  }

  lemma AboveDiffers(key: string, m: seq<Entry>, e: Entry)
    requires Above(key, m) && e in m
    ensures e.key != key
  {
    LessTotal(key, key);
  }

  /** Assignment puts the entry in its place and in place of one with the same key. */
  lemma {:induction false} Inserted(m: seq<Entry>, key: string, v: Json)
    requires Ordered(m)
    ensures Ordered(Insert(m, key, v))
    ensures forall e :: e in Insert(m, key, v) <==> e == Entry(key, v) || (e in m && e.key != key)
  {
    if m != [] {
      LessTotal(key, m[0].key);
      TailAbove(m);
      forall e | e in m[1..] ensures e.key != m[0].key {
        AboveDiffers(m[0].key, m[1..], e);
      }
      hide Less;
      if Less(key, m[0].key) {
        AllAbove(key, m);
        Headed(Entry(key, v), m);
        forall e | e in m ensures e.key != key {
          AboveDiffers(key, m, e);
        }
      } else if key == m[0].key {
        Headed(Entry(key, v), m[1..]);
      } else {
        Inserted(m[1..], key, v);
        Headed(m[0], Insert(m[1..], key, v));
      }
    }
  }

  // Objects

  function KeyOf(m: Member): string
    requires ValidMember(m)
  {
    Meaning(m.key)
  }

  function EntryOf(m: Member, strtod: Strtod): Entry
    requires ValidMember(m)
  {
    assert ValidItem(m.item);
    Entry(KeyOf(m), DocValue(m.item.doc, strtod))
  }

  ghost predicate AllValid(members: seq<Member>) { forall k :: 0 <= k < |members| ==> ValidMember(members[k]) }

  lemma {:induction false} EachValid(members: seq<Member>)
    requires ValidMembers(members)
    ensures AllValid(members)
  {
    hide ValidMember;
    if members != [] { EachValid(members[1..]); }
  }

  /** No member from `k` on has the key. */
  ghost predicate Unset(key: string, members: seq<Member>, k: nat)
    requires AllValid(members)
  {
    forall j :: k <= j < |members| ==> KeyOf(members[j]) != key
  }

  /** The entry of the last member with its key. */
  ghost predicate LastSet(e: Entry, members: seq<Member>, k: nat, strtod: Strtod)
    requires AllValid(members)
  {
    k < |members| && e == EntryOf(members[k], strtod) && Unset(e.key, members, k + 1)
  }

  /** The members of an object are put in the order of their keys, and of several with the same key the last one
      counts. */
  lemma ObjectIsMap(d: Doc, strtod: Strtod)
    requires ValidDoc(d) && d.ObjectDoc?
    ensures AllValid(d.members) && DocValue(d, strtod).Obj? && Sorted(DocValue(d, strtod).members)
    ensures forall e :: e in DocValue(d, strtod).members <==> exists k: nat :: LastSet(e, d.members, k, strtod)
  {
    EachValid(d.members) by { hide ValidMembers, Blank; }
    MembersMap([], d.members, strtod) by { hide ValidMembers, Blank, Less; }
    OrderedIsSorted(MembersValue([], d.members, strtod)) by { hide ValidMembers, Blank, Ordered, Sorted; }
    hide ValidMembers, MembersValue, Ordered, Sorted, LastSet, Unset, Blank;
  }

  lemma {:induction false} MembersMap(before: seq<Entry>, members: seq<Member>, strtod: Strtod)
    requires ValidMembers(members) && AllValid(members) && Ordered(before)
    ensures Ordered(MembersValue(before, members, strtod))
    ensures forall e :: e in MembersValue(before, members, strtod) <==>
      (exists k: nat :: LastSet(e, members, k, strtod)) || (e in before && Unset(e.key, members, 0))
    decreases |members|
  {
    if members == [] {
    } else {
      var m, more := members[0], members[1..];
      var e0 := EntryOf(m, strtod);
      Inserted(before, e0.key, e0.value);
      var now := Insert(before, e0.key, e0.value);
      MembersMap(now, more, strtod);
      assert MembersValue(before, members, strtod) == MembersValue(now, more, strtod);
      forall e ensures e in MembersValue(before, members, strtod) <==>
          (exists k: nat :: LastSet(e, members, k, strtod)) || (e in before && Unset(e.key, members, 0)) {
        FirstSet(e, members, strtod);
      }
    }
  }

  lemma FirstSet(e: Entry, members: seq<Member>, strtod: Strtod)
    requires members != [] && AllValid(members)
    ensures AllValid(members[1..])
    ensures (exists k: nat :: LastSet(e, members, k, strtod)) <==>
      (exists k: nat :: LastSet(e, members[1..], k, strtod))
      || (e == EntryOf(members[0], strtod) && Unset(e.key, members[1..], 0))
    ensures Unset(e.key, members, 0) <==> Unset(e.key, members[1..], 0) && KeyOf(members[0]) != e.key
  {
    hide EntryOf, KeyOf;
    forall k: nat | LastSet(e, members, k, strtod)
      ensures if k == 0 then e == EntryOf(members[0], strtod) && Unset(e.key, members[1..], 0)
        else LastSet(e, members[1..], k - 1, strtod) {
      Later(e.key, members, k);
    }
    forall k: nat | LastSet(e, members[1..], k, strtod) ensures LastSet(e, members, k + 1, strtod) {
      Later(e.key, members, k + 1);
    }
    Later(e.key, members, 0);
    if e == EntryOf(members[0], strtod) && Unset(e.key, members[1..], 0) {
      assert LastSet(e, members, 0, strtod);
    }
  }

  lemma Later(key: string, members: seq<Member>, k: nat)
    requires members != [] && AllValid(members)
    ensures AllValid(members[1..]) && (Unset(key, members, k + 1) <==> Unset(key, members[1..], k))
    ensures Unset(key, members, 0) <==> Unset(key, members[1..], 0) && KeyOf(members[0]) != key
  {
    hide KeyOf, ValidMember;
    if Unset(key, members[1..], k) {
      forall j | k + 1 <= j < |members| ensures KeyOf(members[j]) != key {
        assert members[1..][j - 1] == members[j];
      }
    }
    if Unset(key, members[1..], 0) && KeyOf(members[0]) != key {
      forall j | 0 <= j < |members| ensures KeyOf(members[j]) != key {
        assert j > 0 ==> members[1..][j - 1] == members[j];
      }
    }
    if Unset(key, members, k + 1) {
      forall j | k <= j < |members[1..]| ensures KeyOf(members[1..][j]) != key {
        assert members[1..][j] == members[j + 1];
      }
    }
  }
}
