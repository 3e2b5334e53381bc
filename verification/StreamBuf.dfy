// The stream buffers of fdstream.hpp: an input buffer with a putback area and three
// moving indices over a file descriptor, and an unbuffered output side.

module StreamBuf {

  import opened Common

  const PUTBACK_SIZE := 4
  const BUFFER_SIZE := 1024

  function Min(a: int, b: int): int { if a < b then a else b }

  /** One answer of read(2): up to so many bytes, or an error. */
  datatype Answer = Chunk(n: nat) | Fail

  function Later(script: seq<Answer>): seq<Answer> { if script == [] then [] else script[1..] }

  /** What read(2) returns for a count when so many bytes are left: -1 on an error, 0 only at
      the end. */
  function Amount(answer: Answer, count: nat, rest: nat): (n: int)
    ensures -1 <= n <= count && n <= rest
    ensures n == 0 <==> !answer.Fail? && (count == 0 || rest == 0)
  {
    var most := Min(count, rest);
    match answer
    case Fail => -1
    case Chunk(n) => if n == 0 then Min(1, most) else Min(n, most)
  }

  /** The descriptor: all the bytes it will ever deliver, and how read splits them. */
  class Source {
    const data: string
    var pos: nat
    var script: seq<Answer>
    var failed: bool
    /** Whether a read ever fails. */
    ghost const faulty: bool

    constructor (data: string, script: seq<Answer>)
      ensures Valid() && this.data == data && this.script == script && pos == 0 && !failed
      ensures faulty <==> Fail in script
    {
      this.data, this.script := data, script;
      pos, failed := 0, false;
      faulty := Fail in script;
    }

    ghost predicate Valid()
      reads this
    {
      pos <= |data| && (failed || Fail in script ==> faulty)
    }

    /** What the next read of so many bytes will return. */
    function Next(count: nat): (n: int)
      requires pos <= |data|
      reads this
    {
      Amount(if script == [] then Chunk(count) else script[0], count, |data| - pos)
    }

    /** read(2): -1 on an error, 0 only at the end, else the next bytes. */
    method Read(dst: array<char>, at: nat, count: nat) returns (num: int)
      requires Valid() && 0 < count && at + count <= dst.Length
      modifies this`pos, this`script, this`failed, dst
      ensures Valid() && num == old(Next(count)) && script == Later(old(script))
      ensures num <= 0 ==> pos == old(pos) && dst[..] == old(dst[..])
      ensures num > 0 ==> pos == old(pos) + num
      ensures num > 0 ==> dst[..] == old(dst[..])[..at] + data[old(pos)..pos] + old(dst[..])[at + num..]
      ensures num == 0 ==> pos == |data|
      ensures failed == (old(failed) || num < 0)
    {
      num := Next(count);
      script := Later(script);
      if num < 0 {
        failed := true;
        return;
      }
      forall i | 0 <= i < num {
        dst[at + i] := data[pos + i];
      }
      pos := pos + num;
      assert num > 0 ==> dst[..] == old(dst[..])[..at] + data[old(pos)..pos] + old(dst[..])[at + num..];
    }
  }

  // ----- the layout, without the bytes -----

  /** memmove of the last `back` elements before gptr to the end of the putback area. */
  function Moved<T>(a: seq<T>, back: nat, gptr: nat): (r: seq<T>)
    requires back <= PUTBACK_SIZE <= |a| && back <= gptr <= |a|
    ensures |r| == |a|
  {
    a[..PUTBACK_SIZE - back] + a[gptr - back..gptr] + a[PUTBACK_SIZE..]
  }

  lemma MovedAt<T>(a: seq<T>, back: nat, gptr: nat, o: nat)
    requires back <= PUTBACK_SIZE <= |a| && back <= gptr <= |a| && o < |a|
    ensures Moved(a, back, gptr)[o]
            == if PUTBACK_SIZE - back <= o < PUTBACK_SIZE then a[gptr - PUTBACK_SIZE + o] else a[o]
  {
  }

  /** What a read puts behind the putback area. */
  function Filled<T>(a: seq<T>, more: seq<T>): (r: seq<T>)
    requires PUTBACK_SIZE + |more| <= |a|
    ensures |r| == |a|
  {
    a[..PUTBACK_SIZE] + more + a[PUTBACK_SIZE + |more|..]
  }

  lemma FilledAt<T>(a: seq<T>, more: seq<T>, o: nat)
    requires PUTBACK_SIZE + |more| <= |a| && o < |a|
    ensures Filled(a, more)[o] == if PUTBACK_SIZE <= o < PUTBACK_SIZE + |more| then more[o - PUTBACK_SIZE] else a[o]
  {
  }

  function Positions(from: nat, n: nat): (p: seq<nat>)
    ensures |p| == n && forall i :: 0 <= i < n ==> p[i] == from + i
  {
    seq(n, i requires 0 <= i < n => from + i)
  }

  /** The indices, the stream position that belongs at offset PUTBACK_SIZE, where in the
      stream each byte really comes from, and the offset from which on that is where it
      belongs.  None of it depends on the bytes. */
  datatype Layout = Layout(start: nat, base: nat, eback: nat, gptr: nat, egptr: nat, intact: nat, src: seq<nat>)
  {
    ghost predicate Valid() {
      && |src| == BUFFER_SIZE + PUTBACK_SIZE
      && eback <= PUTBACK_SIZE <= egptr <= |src| && eback <= gptr <= egptr
      && start <= base && PUTBACK_SIZE - eback == Min(base - start, PUTBACK_SIZE)
      && (eback < PUTBACK_SIZE ==> egptr > PUTBACK_SIZE)
      && eback <= intact <= PUTBACK_SIZE
      && (forall o :: intact <= o < egptr ==> src[o] == base + o - PUTBACK_SIZE)
      && (forall o :: eback <= o < intact ==> base + o - PUTBACK_SIZE < src[o] < base + egptr - PUTBACK_SIZE)
    }

    /** The stream position behind the buffer. */
    function End(): int { base + egptr - PUTBACK_SIZE }

    /** How much of what was read a refill keeps. */
    function Kept(): nat
      requires eback <= gptr
    {
      Min(gptr - eback, PUTBACK_SIZE)
    }

    /** A refill that brings nothing: the bytes move, the indices do not. */
    function Missed(): Layout
      requires eback <= gptr <= |src| && PUTBACK_SIZE <= |src|
    {
      this.(src := Moved(src, Kept(), gptr), intact := if Kept() > 0 then PUTBACK_SIZE else intact)
    }

    /** A refill that brings num bytes. */
    function Refilled(num: nat): Layout
      requires eback <= gptr <= |src| && PUTBACK_SIZE <= gptr == egptr && PUTBACK_SIZE + num <= |src|
      requires intact <= PUTBACK_SIZE
    {
      Layout(start, End(), PUTBACK_SIZE - Kept(), PUTBACK_SIZE, PUTBACK_SIZE + num,
             PUTBACK_SIZE - Min(Kept(), egptr - intact),
             Filled(Moved(src, Kept(), gptr), Positions(End(), num)))
    }
  }

  /** Each byte in use is the stream's at the position it was read at. */
  ghost predicate HoldsSources(held: string, l: Layout, d: string) {
    && |held| == |l.src| && l.egptr <= |held| && l.End() <= |d|
    && forall o :: l.eback <= o < l.egptr ==> l.src[o] < |d| && held[o] == d[l.src[o]]
  }

  /** The buffer, its layout and the stream agree, up to position pos. */
  ghost predicate Fits(held: string, l: Layout, d: string, pos: nat) {
    l.Valid() && HoldsSources(held, l, d) && l.End() == pos
  }

  lemma MissedAt(l: Layout, o: nat)
    requires l.Valid() && l.gptr == l.egptr && o < |l.src|
    ensures l.Missed().src[o]
            == if PUTBACK_SIZE - l.Kept() <= o < PUTBACK_SIZE then l.src[l.gptr - PUTBACK_SIZE + o] else l.src[o]
  {
    MovedAt(l.src, l.Kept(), l.gptr, o);
  }

  lemma MissedValid(l: Layout)
    requires l.Valid() && l.gptr == l.egptr
    ensures l.Missed().Valid()
  {
    forall o | 0 <= o < |l.src|
      ensures l.Missed().src[o]
              == if PUTBACK_SIZE - l.Kept() <= o < PUTBACK_SIZE then l.src[l.gptr - PUTBACK_SIZE + o] else l.src[o]
    {
      MissedAt(l, o);
    }
  }

  /** A byte of the putback area and its source are moved together. */
  lemma MovedHoldsAt(l: Layout, held: string, d: string, o: nat)
    requires l.Valid() && l.gptr == l.egptr && HoldsSources(held, l, d)
    requires if o < PUTBACK_SIZE then PUTBACK_SIZE - l.Kept() <= o else o < l.egptr
    ensures var from := Moved(l.src, l.Kept(), l.gptr)[o];
            from < |d| && Moved(held, l.Kept(), l.gptr)[o] == d[from]
  {
    MovedAt(held, l.Kept(), l.gptr, o);
    MovedAt(l.src, l.Kept(), l.gptr, o);
    var before := if o < PUTBACK_SIZE then l.gptr - PUTBACK_SIZE + o else o;
    assert l.eback <= before < l.egptr;
  }

  lemma MissedHolds(l: Layout, held: string, d: string)
    requires l.Valid() && l.gptr == l.egptr && HoldsSources(held, l, d)
    ensures HoldsSources(Moved(held, l.Kept(), l.gptr), l.Missed(), d)
  {
    var m, now := l.Missed(), Moved(held, l.Kept(), l.gptr);
    forall o | m.eback <= o < m.egptr ensures m.src[o] < |d| && now[o] == d[m.src[o]] {
      MovedHoldsAt(l, held, d, o);
    }
  }

  lemma RefilledAt(l: Layout, num: nat, o: nat)
    requires l.Valid() && l.gptr == l.egptr && 0 < num <= BUFFER_SIZE && o < PUTBACK_SIZE + num
    ensures l.Refilled(num).src[o] == if o >= PUTBACK_SIZE then l.End() + o - PUTBACK_SIZE
                                      else if PUTBACK_SIZE - l.Kept() <= o then l.src[l.gptr - PUTBACK_SIZE + o]
                                      else l.src[o]
  {
    MovedAt(l.src, l.Kept(), l.gptr, o);
    FilledAt(Moved(l.src, l.Kept(), l.gptr), Positions(l.End(), num), o);
  }

  lemma RefilledPlace(l: Layout, num: nat, o: nat)
    requires l.Valid() && l.gptr == l.egptr && 0 < num <= BUFFER_SIZE
    requires l.Refilled(num).eback <= o < PUTBACK_SIZE + num
    ensures var m := l.Refilled(num);
            if m.intact <= o then m.src[o] == m.base + o - PUTBACK_SIZE
            else m.base + o - PUTBACK_SIZE < m.src[o] < m.End()
  {
    RefilledAt(l, num, o);
  }

  /** While no refill misses, nothing in the buffer is out of place. */
  lemma RefilledValid(l: Layout, num: nat)
    requires l.Valid() && l.gptr == l.egptr && 0 < num <= BUFFER_SIZE
    ensures l.Refilled(num).Valid()
    ensures l.intact == l.eback ==> l.Refilled(num).intact == l.Refilled(num).eback
  {
    var m := l.Refilled(num);
    forall o | m.eback <= o < m.egptr
      ensures if m.intact <= o then m.src[o] == m.base + o - PUTBACK_SIZE
              else m.base + o - PUTBACK_SIZE < m.src[o] < m.End()
    {
      RefilledPlace(l, num, o);
    }
  }

  /** The byte and its source move together: first within the buffer, then in from the stream. */
  lemma FilledHoldsAt(a: string, src: seq<nat>, d: string, pos: nat, num: nat, o: nat)
    requires PUTBACK_SIZE + num <= |a| == |src| && pos + num <= |d| && o < |a|
    requires PUTBACK_SIZE <= o < PUTBACK_SIZE + num || (src[o] < |d| && a[o] == d[src[o]])
    ensures var from := Filled(src, Positions(pos, num))[o];
            from < |d| && Filled(a, d[pos..pos + num])[o] == d[from]
  {
    FilledAt(a, d[pos..pos + num], o);
    FilledAt(src, Positions(pos, num), o);
  }

  lemma RefilledHolds(l: Layout, held: string, d: string, num: nat)
    requires l.Valid() && l.gptr == l.egptr && HoldsSources(held, l, d)
    requires 0 < num <= BUFFER_SIZE && l.End() + num <= |d|
    ensures HoldsSources(Filled(Moved(held, l.Kept(), l.gptr), d[l.End()..l.End() + num]), l.Refilled(num), d)
  {
    var m, back := l.Refilled(num), l.Kept();
    var a, src := Moved(held, back, l.gptr), Moved(l.src, back, l.gptr);
    forall o | m.eback <= o < m.egptr
      ensures m.src[o] < |d| && Filled(a, d[l.End()..l.End() + num])[o] == d[m.src[o]]
    {
      if o < PUTBACK_SIZE {
        MovedHoldsAt(l, held, d, o);
      }
      FilledHoldsAt(a, src, d, l.End(), num, o);
    }
  }

  lemma MissedFits(l: Layout, held: string, d: string, pos: nat, now: string)
    requires Fits(held, l, d, pos) && l.gptr == l.egptr && now == Moved(held, l.Kept(), l.gptr)
    ensures var m := l.Missed();
            && Fits(now, m, d, pos) && m.gptr >= m.intact
            && m.start == l.start && m.eback == l.eback && m.gptr == l.gptr && m.egptr == l.egptr
  {
    MissedValid(l);
    MissedHolds(l, held, d);
  }

  lemma RefilledFits(l: Layout, held: string, d: string, pos: nat, num: nat, now: string)
    requires Fits(held, l, d, pos) && l.gptr == l.egptr && 0 < num <= BUFFER_SIZE && pos + num <= |d|
    requires now == Filled(Moved(held, l.Kept(), l.gptr), d[pos..pos + num])
    ensures var m := l.Refilled(num);
            && Fits(now, m, d, pos + num) && m.gptr >= m.intact
            && m.start == l.start && m.eback == PUTBACK_SIZE - l.Kept()
            && m.gptr == PUTBACK_SIZE && m.egptr == PUTBACK_SIZE + num
            && (l.intact == l.eback ==> m.intact == m.eback)
  {
    RefilledValid(l, num);
    RefilledHolds(l, held, d, num);
  }

  /** Moving the read position leaves everything in place. */
  lemma FitsAt(l: Layout, held: string, d: string, pos: nat, gptr: nat)
    requires Fits(held, l, d, pos) && l.eback <= gptr <= l.egptr
    ensures Fits(held, l.(gptr := gptr), d, pos)
  {
  }

  /** The byte an unget yields, out of the stream d. */
  function Yields(l: Layout, d: string): char
    requires l.Valid() && l.eback < l.gptr && l.base + l.egptr - PUTBACK_SIZE <= |d|
  {
    d[l.src[l.gptr - 1]]
  }

  /** The byte it ought to yield. */
  function Ought(l: Layout, d: string): char
    requires l.Valid() && l.eback < l.gptr && l.base + l.egptr - PUTBACK_SIZE <= |d|
  {
    d[l.base + l.gptr - 1 - PUTBACK_SIZE]
  }

  ghost predicate RightFor(l: Layout, d: string)
    requires l.Valid() && l.eback < l.gptr
  {
    l.base + l.egptr - PUTBACK_SIZE <= |d| ==> Yields(l, d) == Ought(l, d)
  }

  /** An unget is right for every stream exactly when it stays where nothing is out of place. */
  lemma UngetRightIff(l: Layout)
    requires l.Valid() && l.eback < l.gptr
    ensures (forall d: string :: RightFor(l, d)) <==> l.gptr > l.intact
  {
    var want := l.base + l.gptr - 1 - PUTBACK_SIZE;
    if l.gptr <= l.intact {
      var n := l.base + l.egptr - PUTBACK_SIZE;
      var d := seq(n, i => if i == want then 'a' else 'b');
      assert !RightFor(l, d);
    }
  }

  /** Once a chunk of at least four bytes has been read out, the next refill that brings
      something puts everything right again, however many have missed. */
  lemma RecoversBehindAChunk(l: Layout, num: nat)
    requires l.Valid() && l.gptr == l.egptr && 0 < num <= BUFFER_SIZE && l.egptr - PUTBACK_SIZE >= 4
    ensures l.Refilled(num).intact == l.Refilled(num).eback
  {
  }

  /** Right after a refill that brought nothing, that is: exactly within the last chunk. */
  lemma UngetAfterMissIff(l: Layout, m: Layout)
    requires l.Valid() && l.gptr == l.egptr && l.Missed().Valid()
    requires m == l.Missed().(gptr := m.gptr) && m.eback < m.gptr <= m.egptr
    ensures m.Valid() && ((forall d: string :: RightFor(m, d)) <==> m.gptr > PUTBACK_SIZE)
  {
    UngetRightIff(m);
  }

  lemma Extend(d: string, a: nat, p: nat)
    requires a <= p < |d|
    ensures d[a..p] + [d[p]] == d[a..p + 1]
  {
  }

  class FdInBuf {
    const fd: Source
    const buffer: array<char>
    var eback: nat
    var gptr: nat
    var egptr: nat
    /** Where the stream was when the buffer was made. */
    ghost const start: nat
    ghost var shape: Layout
    /** Refills that brought nothing. */
    ghost var misses: nat

    constructor (fd: Source)
      requires fd.Valid()
      ensures Valid() && this.fd == fd && Position() == fd.pos == start && misses == 0 && fresh(buffer)
      ensures OnStream() && Putback() == 0
      ensures Fresh()
    {
      this.fd := fd;
      buffer := new char[BUFFER_SIZE + PUTBACK_SIZE](_ => '\0');
      eback, gptr, egptr := PUTBACK_SIZE, PUTBACK_SIZE, PUTBACK_SIZE;
      start, misses := fd.pos, 0;
      shape := Layout(fd.pos, fd.pos, PUTBACK_SIZE, PUTBACK_SIZE, PUTBACK_SIZE, PUTBACK_SIZE,
                      Positions(0, BUFFER_SIZE + PUTBACK_SIZE));
    }

    ghost predicate Valid()
      reads this, fd, buffer
    {
      && fd.Valid()
      && buffer.Length == BUFFER_SIZE + PUTBACK_SIZE && Fits(buffer[..], shape, fd.data, fd.pos)
      && Indexed()
    }

    /** The stream position of the next byte. */
    ghost function Position(): nat
      requires Valid()
      reads this, fd, buffer
    {
      shape.base + gptr - PUTBACK_SIZE
    }

    /** How many bytes unget can go back. */
    ghost function Putback(): nat
      requires Valid()
      reads this, fd, buffer
    {
      gptr - eback
    }

    ghost predicate Fresh()
      reads this
    {
      eback == gptr == egptr == shape.intact == PUTBACK_SIZE && shape.base == start
    }

    /** The next byte is one the buffer still holds correctly. */
    ghost predicate OnStream()
      reads this
    {
      gptr >= shape.intact
    }

    /** The bytes just read, at most four, go to the front of the buffer. */
    method SavePutback() returns (backSize: nat)
      requires eback <= gptr <= buffer.Length && PUTBACK_SIZE <= buffer.Length
      modifies buffer
      ensures backSize == Min(gptr - eback, PUTBACK_SIZE)
      ensures buffer[..] == Moved(old(buffer[..]), backSize, gptr)
    {
      backSize := gptr - eback;
      if backSize > PUTBACK_SIZE {
        backSize := PUTBACK_SIZE;
      }
      Memmove(buffer, PUTBACK_SIZE - backSize, gptr - backSize, backSize);
    }

    /** The bytes move, and more may come behind them. */
    method Fetch() returns (backSize: nat, num: int)
      requires fd.Valid() && eback <= gptr <= buffer.Length == BUFFER_SIZE + PUTBACK_SIZE
      modifies buffer, fd`pos, fd`script, fd`failed
      ensures fd.Valid() && backSize == Min(gptr - eback, PUTBACK_SIZE) && num == old(fd.Next(BUFFER_SIZE))
      ensures num > 0 ==> fd.pos == old(fd.pos) + num
      ensures num <= 0 ==> fd.pos == old(fd.pos) && (fd.failed || fd.pos == |fd.data|)
      ensures fd.script == Later(old(fd.script)) && (old(fd.failed) ==> fd.failed)
      ensures buffer[..] == if num > 0 then Filled(Moved(old(buffer[..]), backSize, gptr), fd.data[old(fd.pos)..fd.pos])
                            else Moved(old(buffer[..]), backSize, gptr)
    {
      backSize := SavePutback();
      num := fd.Read(buffer, PUTBACK_SIZE, BUFFER_SIZE);
    }

    /** The indices agree with the layout. */
    ghost predicate Indexed()
      reads this
    {
      && shape.start == start && shape.eback == eback && shape.gptr == gptr && shape.egptr == egptr
      && (misses == 0 ==> shape.intact == eback)
    }

    /** Nothing came; held is what the buffer was. */
    ghost method Miss(held: string)
      requires fd.Valid() && Indexed() && gptr == egptr && buffer.Length == BUFFER_SIZE + PUTBACK_SIZE
      requires Fits(held, shape, fd.data, fd.pos) && buffer[..] == Moved(held, shape.Kept(), gptr)
      modifies this`shape, this`misses
      ensures Valid() && OnStream() && shape == old(shape).Missed() && misses == old(misses) + 1
    {
      MissedFits(shape, held, fd.data, fd.pos, buffer[..]);
      shape := shape.Missed();
      misses := misses + 1;
    }

    /** setg after num bytes came. */
    method Accept(backSize: nat, num: nat, ghost held: string)
      requires fd.Valid() && Indexed() && gptr == egptr && buffer.Length == BUFFER_SIZE + PUTBACK_SIZE
      requires 0 < num <= BUFFER_SIZE && num <= fd.pos && Fits(held, shape, fd.data, fd.pos - num)
      requires backSize == shape.Kept()
      requires buffer[..] == Filled(Moved(held, backSize, gptr), fd.data[fd.pos - num..fd.pos])
      modifies this`eback, this`gptr, this`egptr, this`shape
      ensures Valid() && OnStream() && shape == old(shape).Refilled(num)
    {
      RefilledFits(shape, held, fd.data, fd.pos - num, num, buffer[..]);
      shape := shape.Refilled(num);
      eback, gptr, egptr := PUTBACK_SIZE - backSize, PUTBACK_SIZE, PUTBACK_SIZE + num;
    }

    /** The part of underflow behind the first test: the layout changes by the number of
        bytes that came, and by nothing else. */
    method Refill() returns (more: bool)
      requires Valid() && gptr == egptr
      modifies this`eback, this`gptr, this`egptr, this`shape, this`misses,
               buffer, fd`pos, fd`script, fd`failed
      ensures Valid() && OnStream()
      ensures (old(fd.failed) ==> fd.failed) && fd.script == Later(old(fd.script))
      ensures more <==> old(fd.Next(BUFFER_SIZE)) > 0
      ensures more ==> shape == old(shape).Refilled(old(fd.Next(BUFFER_SIZE))) && misses == old(misses)
      ensures !more ==> shape == old(shape).Missed() && misses == old(misses) + 1
      ensures !more ==> fd.pos == old(fd.pos) && (fd.failed || fd.pos == |fd.data|)
    {
      ghost var held := buffer[..];
      var backSize, num := Fetch();
      more := num > 0;
      if more {
        Accept(backSize, num, held);
      } else {
        Miss(held);
      }
    }

    method Underflow() returns (c: Option<char>)
      requires Valid()
      modifies this`eback, this`gptr, this`egptr, this`shape, this`misses,
               buffer, fd`pos, fd`script, fd`failed
      ensures Valid() && Position() == old(Position())
      ensures old(OnStream()) ==> OnStream()
      ensures old(fd.failed) ==> fd.failed
      ensures c.Some? ==> gptr < egptr && c.value == buffer[gptr] && misses == old(misses)
      ensures c.None? ==> misses == old(misses) + 1 && (fd.failed || fd.pos == |fd.data|)
      ensures old(gptr < egptr) ==> shape == old(shape) && c.Some? && fd.pos == old(fd.pos) && fd.script == old(fd.script)
      ensures old(gptr == egptr) ==>
                && (c.Some? <==> old(fd.Next(1024)) > 0)
                && (c.Some? ==> Putback() == Min(old(Putback()), 4))
                && fd.script == Later(old(fd.script))
      ensures old(gptr == egptr) && c.Some? ==> shape == old(shape).Refilled(old(fd.Next(1024)))
      ensures old(gptr == egptr) && c.None? ==> shape == old(shape).Missed() && fd.pos == old(fd.pos)
    {
      if gptr < egptr {
        return Some(buffer[gptr]);
      }
      var more := Refill();
      if !more {
        return None;
      }
      return Some(buffer[gptr]);
    }

    /** gbump. */
    method MoveTo(at: nat)
      requires Valid() && eback <= at <= egptr
      modifies this`gptr, this`shape
      ensures Valid() && gptr == at && shape == old(shape).(gptr := at)
    {
      FitsAt(shape, buffer[..], fd.data, fd.pos, at);
      gptr := at;
      shape := shape.(gptr := at);
    }

    /** sbumpc. */
    method Get() returns (c: Option<char>)
      requires Valid()
      modifies this, buffer, fd`pos, fd`script, fd`failed
      ensures Valid() && misses == old(misses) + (if c.None? then 1 else 0)
      ensures Position() == old(Position()) + (if c.Some? then 1 else 0)
      ensures old(OnStream()) ==> OnStream()
      ensures old(OnStream()) && c.Some? ==> c.value == fd.data[old(Position())]
      ensures c.None? ==> fd.failed || Position() == |fd.data|
      ensures old(fd.failed) ==> fd.failed
      ensures old(gptr < egptr) ==> shape == old(shape).(gptr := old(gptr) + 1) && fd.script == old(fd.script)
      ensures old(gptr == egptr) ==> fd.script == Later(old(fd.script))
      ensures old(gptr == egptr && fd.Next(BUFFER_SIZE) > 0) ==>
                c.Some? && shape == old(shape).Refilled(old(fd.Next(BUFFER_SIZE))).(gptr := PUTBACK_SIZE + 1)
      ensures old(gptr == egptr && fd.Next(BUFFER_SIZE) <= 0) ==> c.None? && shape == old(shape).Missed()
    {
      c := Underflow();
      if c.Some? {
        MoveTo(gptr + 1);
      }
    }

    /** sungetc: None where the base class would call pbackfail.  The byte is the one of the
        stream position it was read at. */
    method Unget() returns (c: Option<char>)
      requires Valid()
      modifies this`gptr, this`shape
      ensures Valid()
      ensures c.Some? <==> old(Putback()) > 0
      ensures shape == old(shape).(gptr := old(gptr) - (if c.Some? then 1 else 0))
      ensures c.Some? ==> c.value == Yields(old(shape), fd.data)
      ensures c.Some? && OnStream() ==> c.value == fd.data[Position()]
    {
      if gptr == eback {
        return None;
      }
      MoveTo(gptr - 1);
      c := Some(buffer[gptr]);
      assert buffer[gptr] == buffer[..][gptr];
    }

    /** A byte read while nothing is out of place. */
    method GetTrue() returns (c: Option<char>)
      requires Valid() && OnStream()
      modifies this, buffer, fd`pos, fd`script, fd`failed
      ensures Valid() && OnStream() && Position() == old(Position()) + (if c.Some? then 1 else 0) <= |fd.data|
      ensures if c.Some? then c.value == fd.data[old(Position())] else fd.failed || Position() == |fd.data|
      ensures old(fd.failed) ==> fd.failed
    {
      c := Get();
    }

    /** ss << rdbuf(): reads until underflow reports the end. */
    method Drain() returns (text: string)
      requires Valid() && OnStream()
      modifies this, buffer, fd`pos, fd`script, fd`failed
      ensures Valid() && OnStream()
      ensures old(Position()) <= Position() <= |fd.data|
      ensures text == fd.data[old(Position())..Position()]
      ensures Position() == |fd.data| || fd.failed
      ensures old(fd.failed) ==> fd.failed
    {
      text := "";
      ghost var p := Position();
      var c := GetTrue();
      ghost var from := p;
      while c.Some?
        invariant Valid() && OnStream() && (old(fd.failed) ==> fd.failed)
        invariant from <= p <= |fd.data| && Position() == p + if c.Some? then 1 else 0
        invariant text == fd.data[from..p]
        invariant if c.Some? then p < |fd.data| && c.value == fd.data[p] else fd.failed || p == |fd.data|
        decreases |fd.data| - p, c.Some?
      {
        Extend(fd.data, from, p);
        text := text + [c.value];
        p := p + 1;
        c := GetTrue();
      }
    }
  }

  // ----- any reader -----

  datatype Move = Forward | Back

  /** One move: the positions before and after; before it the furthest position, the bounds
      of the chunk in the buffer and whether a refill had missed; and whether a read had
      failed by the end of it. */
  datatype Step = Step(move: Move, got: Option<char>, from: nat, to: nat,
                       furthest: nat, chunk: nat, limit: nat, missed: bool, failed: bool)

  /** A byte delivered is the stream's at that place. */
  predicate Right(data: string, st: Step) {
    match (st.move, st.got)
    case (_, None) => st.to == st.from
    case (Forward, Some(x)) => st.to == st.from + 1 && st.from < |data| && x == data[st.from]
    case (Back, Some(x)) => st.from == st.to + 1 && st.to < |data| && x == data[st.to]
  }

  /** When a move may yield nothing: forward at the end or after an error; back, while no
      refill has missed, only after min(4, consumed) steps from the furthest position, and
      later only at or before the start of the last chunk. */
  predicate Excused(data: string, start: nat, st: Step) {
    match st.move
    case Forward => st.failed || st.from == |data|
    case Back =>
      if st.missed then st.from <= st.chunk else st.from == start || st.from + 4 <= st.furthest
  }

  predicate Fair(data: string, start: nat, st: Step) {
    Right(data, st) && (st.got.None? ==> Excused(data, start, st))
  }

  function Max(a: nat, b: nat): nat { if a < b then b else a }

  /** What a step finds after another; a new chunk is fetched exactly where a get goes on
      from the end of the one before. */
  predicate Follows(st: Step, from: nat, furthest: nat, chunk: nat, limit: nat, missed: bool) {
    && from == st.to && furthest == Max(st.furthest, st.to)
    && (if st.move.Forward? && st.got.Some? && st.from == st.limit then chunk == st.from < limit
        else chunk == st.chunk && limit == st.limit)
    && (missed <==> st.missed || (st.move.Forward? && st.got.None?))
  }

  /** One move of a reader who, after a miss, goes back only within the last chunk. */
  method MoveOn(b: FdInBuf, move: Move, missed: bool, ghost furthest: nat)
      returns (c: Option<char>, again: bool, ghost st: Step)
    requires b.Valid() && b.OnStream() && (missed <==> b.misses > 0)
    requires b.shape.base <= furthest && b.Position() <= furthest
    modifies b, b.buffer, b.fd
    ensures b.Valid() && b.OnStream() && (again <==> b.misses > 0)
    ensures st.move == move && st.got == c && st.from == old(b.Position()) && st.furthest == furthest
    ensures (st.missed <==> missed) && (st.failed <==> b.fd.failed) && (old(b.fd.failed) ==> b.fd.failed)
    ensures Fair(b.fd.data, b.start, st)
    ensures st.chunk == old(b.shape.base) && st.limit == old(b.fd.pos)
    ensures Follows(st, b.Position(), Max(furthest, b.Position()), b.shape.base, b.fd.pos, again)
    ensures b.shape.base <= Max(furthest, b.Position())
  {
    again := missed;
    c := None;
    ghost var chunk, limit, from := b.shape.base, b.fd.pos, b.Position();
    match move {
      case Forward =>
        c := b.Get();
        again := missed || c.None?;
      case Back =>
        if !missed || b.gptr > PUTBACK_SIZE {
          c := b.Unget();
        }
    }
    st := Step(move, c, from, b.Position(), furthest, chunk, limit, missed, b.fd.failed);
  }

  /** A log of fair moves, each going on from the one before. */
  ghost predicate Logged(data: string, start: nat, failed: bool, moves: seq<Move>, seen: seq<Option<char>>, log: seq<Step>) {
    && |seen| == |moves| == |log|
    && (forall k :: 0 <= k < |log| ==> log[k].move == moves[k] && log[k].got == seen[k])
    && (forall k :: 0 <= k < |log| ==> Fair(data, start, log[k]) && (log[k].failed ==> failed))
    && (forall k :: 0 < k < |log| ==>
          Follows(log[k - 1], log[k].from, log[k].furthest, log[k].chunk, log[k].limit, log[k].missed))
  }

  lemma LoggedMore(data: string, start: nat, was: bool, failed: bool, moves: seq<Move>, seen: seq<Option<char>>,
                   log: seq<Step>, st: Step)
    requires Logged(data, start, was, moves, seen, log) && (was ==> failed)
    requires Fair(data, start, st) && (st.failed ==> failed)
    requires log != [] ==> Follows(log[|log| - 1], st.from, st.furthest, st.chunk, st.limit, st.missed)
    ensures Logged(data, start, failed, moves + [st.move], seen + [st.got], log + [st])
  {
  }

  /** Where a step starts. */
  ghost predicate Begins(st: Step, from: nat, furthest: nat, chunk: nat, limit: nat, missed: bool) {
    st.from == from && st.furthest == furthest && st.chunk == chunk && st.limit == limit && st.missed == missed
  }

  /** Any mix of get and unget over any splitting of the stream: every byte delivered is
      the stream's byte at that place, and none is withheld without an excuse. */
  method Reader(b: FdInBuf, moves: seq<Move>) returns (seen: seq<Option<char>>, ghost log: seq<Step>)
    requires b.Valid() && b.OnStream() && b.misses == 0
    modifies b, b.buffer, b.fd
    ensures b.Valid() && Logged(b.fd.data, b.start, b.fd.failed, moves, seen, log)
    ensures log == [] ==> b.Position() == old(b.Position())
    ensures log != [] ==>
              && log[|log| - 1].to == b.Position()
              && Begins(log[0], old(b.Position()), Max(old(b.shape.base), old(b.Position())),
                        old(b.shape.base), old(b.fd.pos), false)
  {
    var missed := false;
    ghost var furthest := Max(b.shape.base, b.Position());
    seen, log := [], [];
    for k := 0 to |moves|
      invariant b.Valid() && b.OnStream() && (missed <==> b.misses > 0)
      invariant b.shape.base <= furthest && b.Position() <= furthest
      invariant Logged(b.fd.data, b.start, b.fd.failed, moves[..k], seen, log)
      invariant log == [] ==> !missed && b.Position() == old(b.Position()) && b.shape.base == old(b.shape.base)
                              && b.fd.pos == old(b.fd.pos) && furthest == Max(b.shape.base, b.Position())
      invariant log != [] ==>
                  && Begins(log[0], old(b.Position()), Max(old(b.shape.base), old(b.Position())),
                            old(b.shape.base), old(b.fd.pos), false)
                  && Follows(log[|log| - 1], b.Position(), furthest, b.shape.base, b.fd.pos, missed)
    {
      var c;
      ghost var st;
      ghost var failed := b.fd.failed;
      c, missed, st := MoveOn(b, moves[k], missed, furthest);
      furthest := Max(furthest, b.Position());
      LoggedMore(b.fd.data, b.start, failed, b.fd.failed, moves[..k], seen, log, st);
      assert moves[..k + 1] == moves[..k] + [moves[k]];
      seen, log := seen + [c], log + [st];
    }
    assert moves[..|moves|] == moves;
  }

  /** Putting back past the start of the last chunk after a first miss, which comes for
      certain at the end: the byte is the last one of that chunk, and so right exactly when
      that equals the one wanted. */
  method UngetAfterMiss(b: FdInBuf) returns (c: Option<char>, ghost wanted: nat)
    requires b.Valid() && b.misses == 0 && b.gptr == b.egptr
    requires b.eback < PUTBACK_SIZE
    modifies b, b.buffer, b.fd
    ensures b.Valid() && wanted == old(b.shape.base) - 1 && wanted < |b.fd.data| && wanted < b.fd.pos <= |b.fd.data|
    ensures b.misses == if old(b.fd.Next(BUFFER_SIZE)) <= 0 then 1 else 0
    ensures old(b.fd.pos) == |b.fd.data| ==> b.misses == 1
    ensures b.misses == 1 ==> b.fd.pos == old(b.fd.pos)
    ensures b.misses == 1 ==> c == Some(b.fd.data[b.fd.pos - 1])
    ensures b.misses == 1 ==>
              (c == Some(b.fd.data[wanted]) <==> b.fd.data[b.fd.pos - 1] == b.fd.data[wanted])
  {
    wanted := b.shape.base - 1;
    c := b.Underflow();
    if c.None? {
      BackToChunkStart(b);
      c := b.Unget();
    }
  }

  /** Putting back the whole of the last chunk. */
  method BackToChunkStart(b: FdInBuf)
    requires b.Valid() && b.gptr >= PUTBACK_SIZE
    modifies b`gptr, b`shape
    ensures b.Valid() && b.shape == old(b.shape).(gptr := PUTBACK_SIZE)
  {
    while b.gptr > PUTBACK_SIZE
      invariant b.Valid() && b.gptr >= PUTBACK_SIZE && b.shape == old(b.shape).(gptr := b.gptr)
      decreases b.gptr
    {
      var _ := b.Unget();
    }
  }

  /** A chunk of four bytes, one of one byte, and the end: the second byte put back is 'e',
      where the stream has 'd'. */
  method PutbackWrong() returns (c: Option<char>)
    ensures c == Some('e') && "abcde"[3] == 'd'
  {
    var fd := new Source("abcde", [Chunk(4), Chunk(1)]);
    var b := new FdInBuf(fd);
    for i := 0 to 4
      invariant b.Valid() && b.fd == fd && b.misses == 0 && fd.data == "abcde" && b.start == 0
      invariant i == 0 ==> b.Fresh() && fd.script == [Chunk(4), Chunk(1)]
      invariant i > 0 ==> b.shape.base == 0 && b.gptr == PUTBACK_SIZE + i && b.egptr == PUTBACK_SIZE + 4
      invariant i > 0 ==> fd.script == [Chunk(1)]
    {
      var _ := b.Get();
    }
    assert b.fd.Next(BUFFER_SIZE) == 1;
    var _ := b.Get();
    assert b.shape.base == 4 && fd.pos == 5;
    ghost var wanted;
    c, wanted := UngetAfterMiss(b);
  }

  // ----- the output side -----

  /** A descriptor that takes what it takes, of at most so much as 32 bits can count. */
  class Sink {
    var taken: string
    var script: seq<Answer>
    var refused: bool

    constructor (script: seq<Answer>)
      ensures taken == "" && !refused
    {
      taken, this.script, refused := "", script, false;
    }

    method Write(s: string) returns (written: int)
      requires |s| <= 0xFFFF_FFFF
      modifies this
      ensures refused == (old(refused) || written <= 0)
      ensures -1 <= written <= |s|
      ensures taken == old(taken) + s[..if written > 0 then written else 0]
    {
      var answer := if script == [] then Chunk(|s|) else script[0];
      script := if script == [] then [] else script[1..];
      if answer.Fail? {
        refused := true;
        return -1;
      }
      written := Min(answer.n, |s|);
      refused := refused || written == 0;
      taken := taken + s[..written];
    }
  }

  const MAX_CHUNK := 0xFFFF_FFFF

  class FdOutBuf {
    const fd: Sink
    var valid: bool

    constructor (fd: Sink)
      ensures this.fd == fd && valid
    {
      this.fd, valid := fd, true;
    }

    method Invalidate()
      modifies this
      ensures !valid
    {
      valid := false;
    }

    /** overflow: None is EOF. */
    method Overflow(c: char) returns (r: Option<char>)
      modifies fd
      ensures r.Some? <==> r == Some(c)
      ensures fd.taken == old(fd.taken) + (if r.Some? then [c] else "")
      ensures !valid ==> r.None?
      ensures valid && !fd.refused ==> r.Some?
    {
      if !valid {
        return None;
      }
      var written := fd.Write([c]);
      if written != 1 {
        return None;
      }
      return Some(c);
    }

    /** xsputn: exactly the prefix it reports has reached the descriptor. */
    method Put(s: string) returns (total: nat)
      modifies fd
      ensures total <= |s|
      ensures fd.taken == old(fd.taken) + s[..total]
      ensures !valid ==> total == 0
      ensures valid && !fd.refused ==> total == |s|
    {
      total := 0;
      if !valid {
        return;
      }
      while total < |s|
        invariant total <= |s|
        invariant fd.taken == old(fd.taken) + s[..total]
        invariant old(fd.refused) ==> fd.refused
      {
        var chunk := |s| - total;
        if chunk > MAX_CHUNK {
          chunk := MAX_CHUNK;
        }
        var written := fd.Write(s[total..total + chunk]);
        if written <= 0 {
          break;
        }
        assert s[..total] + s[total..total + chunk][..written] == s[..total + written];
        total := total + written;
      }
    }
  }
}
