/** The registry of web clients that have asked for `/status` recently. */
module ActiveUsers {

  /** Seconds after which a client that has not asked for `/status` is dropped. */
  const MaxIdleSeconds: int := 5

  /** The registry after `ip` asks for `/status` at time `now`: the caller is
      recorded with `now`, then every entry older than the idle limit is dropped. */
  function Refreshed(users: map<string, int>, ip: string, now: int): (r: map<string, int>)
    ensures ip in r && r[ip] == now
    ensures forall k :: k in r ==> now - r[k] <= MaxIdleSeconds
    ensures forall k :: k in users && k != ip && now - users[k] <= MaxIdleSeconds ==> k in r && r[k] == users[k]
    ensures forall k :: k in r && k != ip ==> k in users && r[k] == users[k]
  {
    var seen := users[ip := now];
    map k | k in seen && now - seen[k] <= MaxIdleSeconds :: seen[k]
  }

  /** Refreshing twice at the same time by the same client changes nothing more. */
  lemma RefreshedIdempotent(users: map<string, int>, ip: string, now: int)
    ensures Refreshed(Refreshed(users, ip, now), ip, now) == Refreshed(users, ip, now)
  {
  }

  /** An entry older than the idle limit is gone afterwards, whoever asked. */
  lemma StaleEntryDropped(users: map<string, int>, ip: string, now: int, other: string)
    requires other in users && other != ip && now - users[other] > MaxIdleSeconds
    ensures other !in Refreshed(users, ip, now)
  {
  }

  /** After a request the active count is at least one and at most one more
      than before. */
  lemma {:induction false} RefreshedCount(users: map<string, int>, ip: string, now: int)
    ensures 1 <= |Refreshed(users, ip, now)| <= |users| + 1
  {
    var r := Refreshed(users, ip, now);
    assert r.Keys <= users.Keys + {ip};
    SubsetCard(r.Keys, users.Keys + {ip});
    assert |users.Keys + {ip}| <= |users.Keys| + 1;
    assert ip in r.Keys;
  }

  lemma {:induction false} SubsetCard(a: set<string>, b: set<string>)
    requires a <= b
    ensures |a| <= |b|
  {
    if a != {} {
      var x :| x in a;
      SubsetCard(a - {x}, b - {x});
    }
  }
}
