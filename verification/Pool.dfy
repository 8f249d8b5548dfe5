/** One group of internal/baichuan/pool.go: the connections to one recorder login, changed in place. */
module Pool {
  import opened Lists
  import opened Wrappers
  import opened Shared

  const DEFAULT_MAX: nat := 4

  /** What the locked part of Open decides: dial as before, try a reader on a connection, wait, or log in. */
  datatype Decision = UseCamera | Try(r: Subscribed) | WaitFor(ch: nat) | LogIn(ch: nat)

  /** The connections of a list that have not ended. */
  ghost function OpenOnes(cs: seq<SharedConn>): (r: seq<SharedConn>)
    reads cs
    ensures forall i :: 0 <= i < |r| ==> r[i] in cs && !r[i].closed
    ensures forall i :: 0 <= i < |cs| && !cs[i].closed ==> cs[i] in r
  {
    if cs == [] then [] else (if cs[0].closed then [] else [cs[0]]) + OpenOnes(cs[1..])
  }

  lemma {:induction false} OpenSnoc(cs: seq<SharedConn>, k: nat)
    requires k < |cs|
    ensures OpenOnes(cs[..k + 1]) == OpenOnes(cs[..k]) + if cs[k].closed then [] else [cs[k]]
    decreases k
  {
    if k == 0 {
      assert cs[..1][1..] == [];
    } else {
      OpenSnoc(cs[1..], k - 1);
      assert cs[..k + 1][1..] == cs[1..][..k] && cs[..k][1..] == cs[1..][..k - 1];
    }
  }

  /** The choice: the first connection that carries the stream, else the first with room. */
  ghost predicate Chosen(cs: seq<SharedConn>, max: nat, key: Key, k: nat)
    reads cs
  {
    && k < |cs|
    && if key in cs[k].previews then forall j :: 0 <= j < k ==> key !in cs[j].previews
       else (forall j :: 0 <= j < |cs| ==> key !in cs[j].previews)
            && |cs[k].previews| < max && forall j :: 0 <= j < k ==> |cs[j].previews| >= max
  }

  ghost predicate AllFull(cs: seq<SharedConn>, max: nat, key: Key)
    reads cs
  {
    forall j :: 0 <= j < |cs| ==> key !in cs[j].previews && |cs[j].previews| >= max
  }

  class Group {
    const max: nat
    var conns: seq<SharedConn>
    var dialing: Option<nat>
    var camera: bool
    var next: nat

    constructor (maxPreviews: int)
      ensures max >= 1 && (maxPreviews > 0 ==> max == maxPreviews) && (maxPreviews <= 0 ==> max == DEFAULT_MAX)
      ensures conns == [] && dialing == None && !camera
    {
      max := if maxPreviews <= 0 then DEFAULT_MAX else maxPreviews;
      conns, dialing, camera, next := [], None, false, 0;
    }

    method Prune()
      modifies `conns
      ensures conns == OpenOnes(old(conns))
    {
      var live: seq<SharedConn> := [];
      var k := 0;
      while k < |conns|
        invariant 0 <= k <= |conns| && conns == old(conns) && live == OpenOnes(conns[..k])
      {
        OpenSnoc(conns, k);
        if !conns[k].closed {
          live := live + [conns[k]];
        }
        k := k + 1;
      }
      assert conns[..k] == conns;
      conns := live;
    }

    method Pick(key: Key) returns (k: Option<nat>)
      ensures k.Some? ==> Chosen(conns, max, key, k.value)
      ensures k.None? <==> AllFull(conns, max, key)
    {
      var i := 0;
      while i < |conns|
        invariant 0 <= i <= |conns|
        invariant forall j :: 0 <= j < i ==> key !in conns[j].previews
      {
        if key in conns[i].previews {
          return Some(i);
        }
        i := i + 1;
      }
      i := 0;
      while i < |conns|
        invariant 0 <= i <= |conns|
        invariant forall j :: 0 <= j < i ==> |conns[j].previews| >= max
      {
        if |conns[i].previews| < max {
          return Some(i);
        }
        i := i + 1;
      }
      k := None;
    }

    /** Open from taking the pool's mutex to letting it go, nothing else having happened meanwhile. */
    method Locked(channel: int, stream: string, id: nat, ok: bool) returns (d: Decision, pick: SharedConn?, k: nat)
      requires forall c :: c in conns ==> c.Valid() && id !in c.subs
      requires forall a, b :: a in conns && b in conns && a != b ==> a.conn != b.conn
      modifies this, conns, set c | c in conns :: c.conn
      ensures camera == old(camera) && (camera <==> d.UseCamera?)
      ensures conns == if camera then old(conns) else old(OpenOnes(conns))
      ensures d.Try? <==> pick != null
      ensures d.Try? ==>
                && k < |conns| && pick == conns[k] && old(Chosen(OpenOnes(conns), max, KeyFor(channel, stream), k))
                && (d.r, pick.St()) == AfterSubscribe(old(pick.St()), channel, stream, id, ok)
      ensures forall c :: c in old(conns) && c != pick ==> c.St() == old(c.St())
      ensures d.WaitFor? || d.LogIn? ==> AllFull(conns, max, KeyFor(channel, stream))
      ensures d.WaitFor? ==> old(dialing) == Some(d.ch)
      ensures d.LogIn? ==> old(dialing) == None && d.ch == old(next)
      ensures dialing == if d.LogIn? then Some(d.ch) else old(dialing)
      ensures next == if d.LogIn? then old(next) + 1 else old(next)
    {
      hide AfterSubscribe, KeyFor, OpenOnes, Chosen, AllFull;
      pick, k := null, 0;
      if camera {
        return UseCamera, null, 0;
      }
      Prune();
      var found := Pick(KeyFor(channel, stream));
      if found.Some? {
        k := found.value;
        pick := conns[k];
        var r := pick.Subscribe(channel, stream, id, ok);
        return Try(r), pick, k;
      }
      d := Turn();
    }

    /** Every connection is full: wait for the login under way, or begin one. */
    method Turn() returns (d: Decision)
      modifies `dialing, `next
      ensures d.WaitFor? || d.LogIn?
      ensures d.WaitFor? ==> old(dialing) == Some(d.ch)
      ensures d.LogIn? ==> old(dialing) == None && d.ch == old(next)
      ensures dialing == if d.LogIn? then Some(d.ch) else old(dialing)
      ensures next == if d.LogIn? then old(next) + 1 else old(next)
    {
      if dialing.Some? {
        return WaitFor(dialing.value);
      }
      d := LogIn(next);
      dialing := Some(next);
      next := next + 1;
    }

    /** The end of a login that made a recorder's connection: it joins the group. */
    method Publish(s: SharedConn)
      modifies `conns
      ensures conns == old(conns) + [s]
    {
      conns := conns + [s];
    }

    /** The end of any login: its channel is closed, and the next Open may log in. */
    method EndDial() returns (closed: nat)
      requires dialing.Some?
      modifies `dialing
      ensures dialing == None && Some(closed) == old(dialing)
    {
      closed := dialing.value;
      dialing := None;
    }

    /** Closes a connection with no reader left, and takes it out of the group. */
    method Idle(s: SharedConn)
      requires s.Valid()
      modifies `conns, s, s.conn
      ensures var did := old(s.previews == map[] && !s.closed);
              && s.St() == (if did then AfterCloseIfIdle(old(s.St())).(conn := AfterConnClose(old(s.conn.St())))
                            else old(s.St()))
              && conns == if did then RemoveFirst(old(conns), s) else old(conns)
    {
      hide AfterCloseIfIdle, AfterConnClose, RemoveFirst;
      var did := s.CloseIfIdle();
      if did {
        Drop(s);
      }
    }

    method Drop(s: SharedConn)
      modifies `conns
      ensures conns == RemoveFirst(old(conns), s)
    {
      var i := IndexOf(conns, s);
      if i < |conns| {
        conns := conns[..i] + conns[i + 1..];
      }
    }
  }
}
