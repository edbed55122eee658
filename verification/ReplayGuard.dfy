// Replay detection through one shared key store: SET key NX EX ttl.
module ReplayGuard {
  import opened Prelude

  const PREFIX: string := "replay:"

  function KeyOf(id: string): string { PREFIX + id }

  /** Keys with their expiry in milliseconds, if they have one. */
  type Keys = map<string, Option<int>>

  predicate Alive(keys: Keys, key: string, now: int) {
    key in keys && (keys[key].Some? ==> now < keys[key].value)
  }

  datatype Outcome = Accepted | Replay | InvalidTtl

  /** What Redis answers to SET key "1" NX EX ttl; a ttl that is not positive is an error. */
  function Decide(keys: Keys, id: string, now: int, ttl: int): Outcome {
    if ttl <= 0 then InvalidTtl else if Alive(keys, KeyOf(id), now) then Replay else Accepted
  }

  function Store(keys: Keys, id: string, now: int, ttl: int): Keys {
    if Decide(keys, id, now, ttl).Accepted? then keys[KeyOf(id) := Some(now + 1000 * ttl)] else keys
  }

  predicate Guarded(key: string) { PREFIX <= key }

  /** What reset_replay_guard leaves. */
  function Unguarded(keys: Keys): Keys { map key | key in keys && !Guarded(key) :: keys[key] }

  class Redis {
    var keys: Keys
    /** SCAN walks the table slot by slot. */
    const slots: nat
    const slotOf: string -> nat

    ghost predicate Valid()
      reads this
    {
      slots > 0 && forall key :: key in keys ==> slotOf(key) < slots
    }

    constructor (slots: nat, slotOf: string -> nat)
      requires slots > 0
      ensures Valid() && keys == map[] && this.slots == slots && this.slotOf == slotOf
    {
      this.slots := slots;
      this.slotOf := slotOf;
      keys := map[];
    }

    method SetNxEx(key: string, now: int, ttl: int) returns (stored: bool)
      requires ttl > 0
      modifies this
      ensures stored <==> !Alive(old(keys), key, now)
      ensures keys == if stored then old(keys)[key := Some(now + 1000 * ttl)] else old(keys)
    {
      stored := !Alive(keys, key, now);
      if stored { keys := keys[key := Some(now + 1000 * ttl)]; }
    }

    /** One SCAN call with MATCH: the guarded keys of a slot, and the next cursor, 0 at the end. */
    method Scan(cursor: nat) returns (next: nat, found: set<string>)
      requires Valid() && cursor < slots
      ensures found == set key | key in keys && slotOf(key) == cursor && Guarded(key)
      ensures next == if cursor + 1 == slots then 0 else cursor + 1
    {
      found := set key | key in keys && slotOf(key) == cursor && Guarded(key);
      next := if cursor + 1 == slots then 0 else cursor + 1;
    }

    method Delete(gone: set<string>)
      modifies this
      ensures keys == old(keys) - gone
    {
      keys := keys - gone;
    }
  }

  /** check_replay: InvalidTtl is the error Redis raises, Replay is ReplayDetectedError. */
  method CheckReplay(id: string, redis: Redis, now: int, ttl: int) returns (r: Outcome)
    modifies redis
    ensures r == Decide(old(redis.keys), id, now, ttl)
    ensures redis.keys == Store(old(redis.keys), id, now, ttl)
  {
    if ttl <= 0 { return InvalidTtl; }
    var stored := redis.SetNxEx(KeyOf(id), now, ttl);
    r := if stored then Accepted else Replay;
  }

  /** What instances sharing the store do, in the order the store sees it. A reset is not one
      event: each DEL of its cursor loop is, and calls may come between them. */
  datatype Event = Call(id: string, now: int, ttl: int) | Drop(gone: set<string>)

  function After(keys: Keys, trace: seq<Event>): Keys {
    if trace == [] then keys
    else
      var before := After(keys, trace[..|trace| - 1]);
      match trace[|trace| - 1]
      case Call(id, now, ttl) => Store(before, id, now, ttl)
      case Drop(gone) => before - gone
  }

  /** The DELs of a reset name guarded keys only. */
  ghost predicate Drops(trace: seq<Event>) {
    forall i :: 0 <= i < |trace| ==> trace[i].Drop? && forall key :: key in trace[i].gone ==> Guarded(key)
  }

  /** reset_replay_guard: undisturbed, the cursor loop removes every guarded key and no other, one
      DEL after another. */
  method ResetReplayGuard(redis: Redis) returns (ghost drops: seq<Event>)
    requires redis.Valid()
    modifies redis
    ensures redis.Valid() && redis.keys == Unguarded(old(redis.keys))
    ensures Drops(drops) && redis.keys == After(old(redis.keys), drops)
  {
    drops := [];
    var cursor := 0;
    var done := false;
    ghost var seen := 0;
    while !done
      invariant redis.Valid() && seen <= redis.slots
      invariant if done then seen == redis.slots else cursor == seen < redis.slots
      invariant forall key :: key in redis.keys <==>
                  key in old(redis.keys) && !(Guarded(key) && redis.slotOf(key) < seen)
      invariant forall key :: key in redis.keys ==> redis.keys[key] == old(redis.keys)[key]
      invariant Drops(drops) && redis.keys == After(old(redis.keys), drops)
      decreases redis.slots - seen, !done
    {
      ghost var before := redis.keys;
      var next, found := redis.Scan(cursor);
      assert forall key :: key in found <==> key in before && redis.slotOf(key) == cursor && Guarded(key);
      if found != {} {
        redis.Delete(found);
        DropSnoc(old(redis.keys), drops, found);
        drops := drops + [Drop(found)];
      }
      assert forall key :: key in redis.keys <==> key in before && key !in found;
      seen := seen + 1;
      cursor := next;
      done := cursor == 0;
    }
  }

  lemma DropSnoc(keys: Keys, trace: seq<Event>, gone: set<string>)
    ensures After(keys, trace + [Drop(gone)]) == After(keys, trace) - gone
  {
    assert (trace + [Drop(gone)])[..|trace|] == trace;
  }

  // ----- Any interleaving of calls ------------------------------------------------

  /** The answer the i-th event got. */
  function Answer(keys: Keys, trace: seq<Event>, i: nat): Outcome
    requires i < |trace| && trace[i].Call?
  {
    Decide(After(keys, trace[..i]), trace[i].id, trace[i].now, trace[i].ttl)
  }

  /** The store's clock does not run backwards. */
  ghost predicate Timed(trace: seq<Event>) {
    forall i, j :: 0 <= i < j < |trace| && trace[i].Call? && trace[j].Call? ==> trace[i].now <= trace[j].now
  }

  predicate DropsId(e: Event, id: string) { e.Drop? && KeyOf(id) in e.gone }

  /** The j-th event is an accepted call for `id`, whose key was not dropped since, and whose ttl
      still runs at `t`. */
  ghost predicate Blocks(keys: Keys, trace: seq<Event>, j: int, id: string, t: int) {
    && 0 <= j < |trace| && trace[j].Call? && trace[j].id == id
    && Answer(keys, trace, j).Accepted?
    && t < trace[j].now + 1000 * trace[j].ttl
    && forall k :: j < k < |trace| ==> !DropsId(trace[k], id)
  }

  ghost predicate Fresh(keys: Keys) { forall key :: key in keys ==> !Guarded(key) }

  lemma KeysDistinct(a: string, b: string)
    requires KeyOf(a) == KeyOf(b)
    ensures a == b
  {
    assert a == KeyOf(a)[|PREFIX|..] && b == KeyOf(b)[|PREFIX|..];
  }

  lemma AnswerPrefix(keys: Keys, trace: seq<Event>, i: nat, n: nat)
    requires i < n <= |trace| && trace[i].Call?
    ensures Answer(keys, trace[..n], i) == Answer(keys, trace, i)
  {
    assert trace[..n][..i] == trace[..i];
  }

  lemma BlocksPrefix(keys: Keys, trace: seq<Event>, j: int, id: string, t: int)
    requires trace != [] && j < |trace| - 1
    ensures Blocks(keys, trace, j, id, t) <==>
            !DropsId(trace[|trace| - 1], id) && Blocks(keys, trace[..|trace| - 1], j, id, t)
  {
    var init := trace[..|trace| - 1];
    if 0 <= j && trace[j].Call? { AnswerPrefix(keys, trace, j, |trace| - 1); }
    if Blocks(keys, trace, j, id, t) { assert !DropsId(trace[|trace| - 1], id); }
    assert forall k :: 0 <= k < |init| ==> init[k] == trace[k];
  }

  /** A stored key is alive exactly while some accepted call still blocks. */
  lemma {:induction false} AliveIffBlocked(keys: Keys, trace: seq<Event>, id: string, t: int)
    requires Fresh(keys) && Timed(trace)
    requires forall i :: 0 <= i < |trace| && trace[i].Call? ==> trace[i].now <= t
    ensures Alive(After(keys, trace), KeyOf(id), t) <==> exists j :: Blocks(keys, trace, j, id, t)
  {
    if trace == [] {
      assert Guarded(KeyOf(id));
    } else {
      var n := |trace| - 1;
      var init := trace[..n];
      AliveIffBlocked(keys, init, id, t);
      match trace[n]
      case Drop(gone) => DropUnblocks(keys, trace, init, id, t);
      case Call(other, now, ttl) =>
        AliveIffBlocked(keys, init, other, now);
        forall j | j < n ensures Blocks(keys, trace, j, id, t) <==> Blocks(keys, init, j, id, t) {
          BlocksPrefix(keys, trace, j, id, t);
        }
        CallBlocks(keys, trace, id, t);
    }
  }

  /** A DEL ends the blocks of the ids it names and of no other. */
  lemma DropUnblocks(keys: Keys, trace: seq<Event>, init: seq<Event>, id: string, t: int)
    requires trace != [] && trace[|trace| - 1].Drop? && init == trace[..|trace| - 1]
    requires Alive(After(keys, init), KeyOf(id), t) <==> exists j :: Blocks(keys, init, j, id, t)
    ensures Alive(After(keys, trace), KeyOf(id), t) <==> exists j :: Blocks(keys, trace, j, id, t)
  {
    var drops := DropsId(trace[|trace| - 1], id);
    assert Alive(After(keys, trace), KeyOf(id), t) <==> Alive(After(keys, init), KeyOf(id), t) && !drops;
    if j :| Blocks(keys, init, j, id, t) { BlocksPrefix(keys, trace, j, id, t); }
    if j :| Blocks(keys, trace, j, id, t) {
      assert j < |trace| - 1;
      BlocksPrefix(keys, trace, j, id, t);
    }
  }

  /** The last call blocks exactly when it was accepted; an earlier acceptance it superseded
      has run out, so the key lives exactly as long as one of the blocks. */
  lemma CallBlocks(keys: Keys, trace: seq<Event>, id: string, t: int)
    requires trace != [] && trace[|trace| - 1].Call? && trace[|trace| - 1].now <= t
    requires forall j :: j < |trace| - 1 ==>
               (Blocks(keys, trace, j, id, t) <==> Blocks(keys, trace[..|trace| - 1], j, id, t))
    requires var e, init := trace[|trace| - 1], trace[..|trace| - 1];
             && (Alive(After(keys, init), KeyOf(id), t) <==> exists j :: Blocks(keys, init, j, id, t))
             && (Alive(After(keys, init), KeyOf(e.id), e.now) <==> exists j :: Blocks(keys, init, j, e.id, e.now))
    ensures Alive(After(keys, trace), KeyOf(id), t) <==> exists j :: Blocks(keys, trace, j, id, t)
  {
    var n := |trace| - 1;
    var e, init := trace[n], trace[..n];
    if KeyOf(e.id) == KeyOf(id) { KeysDistinct(e.id, id); }
    if e.id == id && Answer(keys, trace, n).Accepted? {
      if t < e.now + 1000 * e.ttl {
        assert Blocks(keys, trace, n, id, t);
      } else {
        forall j ensures !Blocks(keys, trace, j, id, t) {
          assert !Blocks(keys, init, j, id, e.now);
        }
      }
    } else {
      assert !Blocks(keys, trace, n, id, t);
      if j :| Blocks(keys, init, j, id, t) { assert Blocks(keys, trace, j, id, t); }
      if j :| Blocks(keys, trace, j, id, t) { assert j < n && Blocks(keys, init, j, id, t); }
    }
  }

  /** With any number of instances and any interleaving, a call with a positive ttl is
      rejected exactly when an accepted call with its id, not deleted by a reset since, came less than
      that call's own ttl before. */
  lemma RejectedExactlyWithinTtl(keys: Keys, trace: seq<Event>, i: nat)
    requires Fresh(keys) && Timed(trace) && i < |trace| && trace[i].Call?
    ensures Answer(keys, trace, i).InvalidTtl? <==> trace[i].ttl <= 0
    ensures trace[i].ttl > 0 ==>
              (Answer(keys, trace, i).Replay? <==> exists j :: Blocks(keys, trace[..i], j, trace[i].id, trace[i].now))
  {
    assert Timed(trace[..i]) by {
      forall a, b | 0 <= a < b < i && trace[..i][a].Call? && trace[..i][b].Call?
        ensures trace[..i][a].now <= trace[..i][b].now
      {
        assert trace[a].Call? && trace[b].Call?;
      }
    }
    AliveIffBlocked(keys, trace[..i], trace[i].id, trace[i].now);
  }

  /** Two accepted calls with one id, with no DEL of its key between, are at least the first one's
      ttl apart; rejected calls in between change nothing. */
  lemma AcceptedFarApart(keys: Keys, trace: seq<Event>, i: nat, j: nat)
    requires Fresh(keys) && Timed(trace) && i < j < |trace| && trace[i].Call? && trace[j].Call?
    requires trace[i].id == trace[j].id && Answer(keys, trace, i).Accepted? && Answer(keys, trace, j).Accepted?
    requires forall k :: i < k < j ==> !DropsId(trace[k], trace[i].id)
    ensures trace[j].now >= trace[i].now + 1000 * trace[i].ttl
  {
    RejectedExactlyWithinTtl(keys, trace, j);
    AnswerPrefix(keys, trace, i, j);
    if trace[j].now < trace[i].now + 1000 * trace[i].ttl {
      assert Blocks(keys, trace[..j], i, trace[j].id, trace[j].now);
    }
  }

  /** A rejected call leaves every key, and so every expiry, as it was. */
  lemma RejectionExtendsNothing(keys: Keys, trace: seq<Event>, i: nat)
    requires i < |trace| && trace[i].Call? && !Answer(keys, trace, i).Accepted?
    ensures After(keys, trace[..i + 1]) == After(keys, trace[..i])
  {
    assert trace[..i + 1][..i] == trace[..i];
  }
}
