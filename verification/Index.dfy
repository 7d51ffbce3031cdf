/** A membership index: the keys filed under each heading, against the heading each key belongs to. */
module Index {
  import opened Sums

  /** Every key is filed under its own heading. */
  predicate Files<K, T>(home: map<K, T>, member: map<T, set<K>>) {
    forall k :: k in home ==> home[k] in member && k in member[home[k]]
  }

  /** ... and nothing else is filed anywhere. */
  predicate Exact<K, T(==)>(home: map<K, T>, member: map<T, set<K>>) {
    && Files(home, member)
    && forall t, k :: t in member && k in member[t] ==> k in home && home[k] == t
  }

  ghost function Under<K, T>(home: map<K, T>, t: T): set<K> { set k | k in home && home[k] == t }

  ghost function SizeUnder<K, T>(home: map<K, T>): T -> int { t => |Under(home, t)| }

  lemma ExactMembers<K, T>(home: map<K, T>, member: map<T, set<K>>, t: T)
    requires Exact(home, member) && t in member
    ensures member[t] == Under(home, t)
  {
  }

  /** Taking one heading's keys away leaves the others alone. */
  lemma PeelHeading<K, T(!new)>(home: map<K, T>, t: T)
    ensures |home.Keys| == |Under(home, t)| + |(home - Under(home, t)).Keys|
    ensures forall t' :: t' != t ==> Under(home - Under(home, t), t') == Under(home, t')
  {
    var here := Under(home, t);
    assert home.Keys == here + (home - here).Keys;
  }

  /** The keys under all headings together are all the keys. */
  lemma {:induction false} HeadingsCoverKeys<K, T(!new)>(home: map<K, T>, heads: set<T>)
    requires forall k :: k in home ==> home[k] in heads
    ensures |home.Keys| == Sum(heads, SizeUnder(home))
    decreases |heads|
  {
    if heads == {} {
      assert home.Keys == {};
    } else {
      var t :| t in heads;
      var rest := home - Under(home, t);
      PeelHeading(home, t);
      SumTake(heads, SizeUnder(home), t);
      HeadingsCoverKeys(rest, heads - {t});
      SumSame(heads - {t}, SizeUnder(rest), SizeUnder(home));
    }
  }

  lemma Opened<K, T>(home: map<K, T>, member: map<T, set<K>>, t: T)
    requires t !in member
    ensures Files(home, member) ==> Files(home, member[t := {}])
    ensures Exact(home, member) ==> Exact(home, member[t := {}])
  {
  }

  lemma Inserted<K, T>(home: map<K, T>, member: map<T, set<K>>, k: K, t: T)
    requires t in member
    ensures Files(home, member) ==> Files(home[k := t], member[t := member[t] + {k}])
    ensures Exact(home, member) && k !in home ==> Exact(home[k := t], member[t := member[t] + {k}])
  {
  }

  /** Filing a key that is already filed elsewhere leaves its old entry behind. */
  lemma RejoinedIndex<K, T>(home: map<K, T>, member: map<T, set<K>>, k: K, t: T)
    requires Exact(home, member) && k in home && t in member
    ensures Exact(home[k := t], member[t := member[t] + {k}]) <==> home[k] == t
  {
    var home', member' := home[k := t], member[t := member[t] + {k}];
    if home[k] == t {
      assert home' == home && member[t] + {k} == member[t] && member' == member;
    } else {
      assert home[k] in member' && k in member'[home[k]] && home'[k] != home[k];
    }
  }

  lemma Removed<K, T>(home: map<K, T>, member: map<T, set<K>>, k: K)
    requires Files(home, member) && k in home
    ensures Files(home - {k}, member[home[k] := member[home[k]] - {k}])
    ensures Exact(home, member) ==> Exact(home - {k}, member[home[k] := member[home[k]] - {k}])
  {
  }

  /** The index with the keys `gone` struck from their own headings. */
  function Cut<K, T(==)>(member: map<T, set<K>>, home: map<K, T>, gone: set<K>): map<T, set<K>> {
    map t | t in member :: member[t] - (set k | k in gone && k in home && home[k] == t)
  }

  lemma CutNone<K, T>(member: map<T, set<K>>, home: map<K, T>)
    ensures Cut(member, home, {}) == member
  {
    assert forall t :: t in member ==> Cut(member, home, {})[t] == member[t];
  }

  lemma CutOneMore<K, T>(member: map<T, set<K>>, home: map<K, T>, gone: set<K>, k: K)
    requires k in home
    ensures
      var m := Cut(member, home, gone);
      Cut(member, home, gone + {k}) == if home[k] in m then m[home[k] := m[home[k]] - {k}] else m
  {
    var m, m' := Cut(member, home, gone), Cut(member, home, gone + {k});
    assert forall t :: t in m ==> m'[t] == if t == home[k] then m[t] - {k} else m[t];
  }

  lemma RemovedAll<K, T>(home: map<K, T>, member: map<T, set<K>>, gone: set<K>)
    requires Files(home, member) && gone <= home.Keys
    ensures Files(home - gone, Cut(member, home, gone))
    ensures Exact(home, member) ==> Exact(home - gone, Cut(member, home, gone))
  {
  }
}
