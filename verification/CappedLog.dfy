/** The size-capped run log: a head that fills up, a tail that is trimmed, and a count of what fell between them. */
module CappedLog {
  import opened Wrappers

  newtype Byte = x: int | 0 <= x < 256
  type Bytes = seq<Byte>

  function Concat(chunks: seq<Bytes>): Bytes {
    if chunks == [] then [] else chunks[0] + Concat(chunks[1..])
  }

  lemma {:induction false} ConcatAppend(a: seq<Bytes>, b: seq<Bytes>)
    ensures Concat(a + b) == Concat(a) + Concat(b)
  {
    if a == [] {
      assert a + b == b;
    } else {
      assert (a + b)[1..] == a[1..] + b;
      ConcatAppend(a[1..], b);
    }
  }

  lemma ConcatSnoc(a: seq<Bytes>, c: Bytes)
    ensures Concat(a + [c]) == Concat(a) + c
  {
    ConcatAppend(a, [c]);
  }

  /** What the process wrote: an empty read is the end of the output. */
  function Output(chunks: seq<Bytes>): Bytes {
    if chunks == [] || chunks[0] == [] then [] else chunks[0] + Output(chunks[1..])
  }

  lemma {:induction false} OutputUpTo(chunks: seq<Bytes>, k: nat)
    requires k <= |chunks|
    requires forall i | 0 <= i < k :: chunks[i] != []
    requires k == |chunks| || chunks[k] == []
    ensures Output(chunks) == Concat(chunks[..k])
  {
    if k > 0 {
      assert chunks[..k][1..] == chunks[1..][..k - 1];
      OutputUpTo(chunks[1..], k - 1);
    }
  }

  // ----- what the log is meant to be -----

  /** int(cap * 0.8) */
  function HeadLimit(cap: nat): (h: nat)
    ensures h <= cap && 5 * h <= 4 * cap < 5 * h + 5
  {
    (cap as real * 0.8).Floor
  }

  function Digits(n: nat): string {
    var digit := ['0', '1', '2', '3', '4', '5', '6', '7', '8', '9'][n % 10];
    if n < 10 then [digit] else Digits(n / 10) + [digit]
  }

  function Encode(s: string): Bytes {
    seq(|s|, i requires 0 <= i < |s| => (s[i] as int % 256) as Byte)
  }

  function NoticeText(cap: nat, dropped: nat, head: nat, tail: nat): string {
    "\n[log capped at " + Digits(cap) + (" bytes: " + Digits(dropped) + (" bytes dropped after the first "
           + Digits(head) + ("; the last " + Digits(tail) + " follow]\n")))
  }

  function Notice(cap: nat, dropped: nat, head: nat, tail: nat): Bytes {
    Encode(NoticeText(cap, dropped, head, tail))
  }

  // ----- the notice can be read back -----

  predicate IsDigit(c: char) {
    '0' <= c <= '9'
  }

  function NumberOf(s: string): int {
    if s == [] then 0 else 10 * NumberOf(s[..|s| - 1]) + (s[|s| - 1] as int - '0' as int)
  }

  lemma {:induction false} DigitsRead(n: nat)
    ensures Digits(n) != [] && NumberOf(Digits(n)) == n
    ensures forall i | 0 <= i < |Digits(n)| :: IsDigit(Digits(n)[i])
  {
    var digit := ['0', '1', '2', '3', '4', '5', '6', '7', '8', '9'][n % 10];
    assert IsDigit(digit) && digit as int - '0' as int == n % 10;
    if n < 10 {
      assert [digit][..0] == [];
      assert NumberOf([]) == 0;
    } else {
      DigitsRead(n / 10);
      assert (Digits(n / 10) + [digit])[..|Digits(n / 10)|] == Digits(n / 10);
    }
  }

  function LeadingDigits(s: string): string {
    if s == [] || !IsDigit(s[0]) then [] else [s[0]] + LeadingDigits(s[1..])
  }

  lemma {:induction false} LeadingDigitsOf(x: string, r: string)
    requires r != [] && !IsDigit(r[0]) && forall i | 0 <= i < |x| :: IsDigit(x[i])
    ensures LeadingDigits(x + r) == x
  {
    if x == [] {
      assert x + r == r;
    } else {
      assert (x + r)[1..] == x[1..] + r;
      LeadingDigitsOf(x[1..], r);
    }
  }

  /** Digits end where something else begins. */
  lemma DigitsEnd(x: string, y: string, r: string, s: string)
    requires x + r == y + s && r != [] && s != [] && !IsDigit(r[0]) && !IsDigit(s[0])
    requires forall i | 0 <= i < |x| :: IsDigit(x[i])
    requires forall i | 0 <= i < |y| :: IsDigit(y[i])
    ensures x == y && r == s
  {
    LeadingDigitsOf(x, r);
    LeadingDigitsOf(y, s);
    assert (x + r)[|x|..] == r && (y + s)[|y|..] == s;
  }

  lemma NextField(before: string, n: nat, n': nat, rest: string, rest': string)
    requires before + Digits(n) + rest == before + Digits(n') + rest'
    requires rest != [] && rest' != [] && !IsDigit(rest[0]) && !IsDigit(rest'[0])
    ensures n == n' && rest == rest'
  {
    DigitsRead(n);
    DigitsRead(n');
    hide Digits, NumberOf;
    var k := |before|;
    assert (before + Digits(n) + rest)[k..] == Digits(n) + rest;
    assert (before + Digits(n') + rest')[k..] == Digits(n') + rest';
    DigitsEnd(Digits(n), Digits(n'), rest, rest');
  }

  /** Different counts give different notices. */
  lemma NoticeTellsCounts(c: nat, d: nat, h: nat, t: nat, c': nat, d': nat, h': nat, t': nat)
    requires NoticeText(c, d, h, t) == NoticeText(c', d', h', t')
    ensures c == c' && d == d' && h == h' && t == t'
  {
    hide Digits;
    var last, last' := "; the last " + Digits(t) + " follow]\n", "; the last " + Digits(t') + " follow]\n";
    var first := " bytes dropped after the first " + Digits(h) + last;
    var first' := " bytes dropped after the first " + Digits(h') + last';
    var capped, capped' := " bytes: " + Digits(d) + first, " bytes: " + Digits(d') + first';
    assert !IsDigit(last[0]) && !IsDigit(last'[0]) && !IsDigit(first[0]) && !IsDigit(first'[0]);
    assert !IsDigit(capped[0]) && !IsDigit(capped'[0]) && !IsDigit(" follow]\n"[0]);
    NextField("\n[log capped at ", c, c', capped, capped');
    NextField(" bytes: ", d, d', first, first');
    NextField(" bytes dropped after the first ", h, h', last, last');
    NextField("; the last ", t, t', " follow]\n", " follow]\n");
  }

  /** The log of an output: all of it if it fits, otherwise its first and last bytes around the notice. */
  function LogOf(output: Bytes, cap: Option<nat>): Bytes {
    if cap.None? || |output| <= cap.value then output
    else
      var head := HeadLimit(cap.value);
      var tail := cap.value - head;
      output[..head] + Notice(cap.value, |output| - cap.value, head, tail) + output[|output| - tail..]
  }

  // ----- the loop -----

  /** Drops bytes from the front of the tail until it fits; nothing but the oldest bytes is lost. */
  method Trim(tail: seq<Bytes>, tailSize: nat, tailLimit: nat, dropped: nat)
      returns (tail': seq<Bytes>, tailSize': nat, dropped': nat)
    requires tailSize == |Concat(tail)|
    ensures dropped' == dropped + (tailSize - tailSize')
    ensures tailSize' == if tailSize > tailLimit then tailLimit else tailSize
    ensures Concat(tail') == Concat(tail)[tailSize - tailSize'..]
  {
    tail', tailSize', dropped' := tail, tailSize, dropped;
    while tailSize' > tailLimit
      invariant tailSize' <= tailSize && tailSize' == |Concat(tail')|
      invariant tailSize > tailLimit ==> tailSize' >= tailLimit
      invariant tailSize <= tailLimit ==> tailSize' == tailSize
      invariant dropped' == dropped + (tailSize - tailSize')
      invariant Concat(tail') == Concat(tail)[tailSize - tailSize'..]
      decreases tailSize', |tail'|
    {
      var over := tailSize' - tailLimit;
      var first := tail'[0];
      if |first| <= over {
        tail' := tail'[1..];
        tailSize' := tailSize' - |first|;
        dropped' := dropped' + |first|;
      } else {
        tail' := [first[over..]] + tail'[1..];
        tailSize' := tailSize' - over;
        dropped' := dropped' + over;
      }
    }
  }

  /** The bytes read so far are the head, then the dropped bytes, then the tail, in this order. */
  ghost predicate Holds(seen: Bytes, head: Bytes, dropped: nat, tail: Bytes, headLimit: nat, tailLimit: nat) {
    && |seen| == |head| + dropped + |tail|
    && seen[..|head|] == head && seen[|head| + dropped..] == tail
    && |head| <= headLimit && |tail| <= tailLimit
    && (dropped + |tail| > 0 ==> |head| == headLimit)
    && (dropped > 0 ==> |tail| == tailLimit)
  }

  /** What one chunk does: it fills the head first, the rest joins the tail, and the overflow is dropped. */
  lemma HoldsNext(seen: Bytes, head: Bytes, dropped: nat, tail: Bytes, headLimit: nat, tailLimit: nat,
                  chunk: Bytes, taken: nat, over: nat)
    requires Holds(seen, head, dropped, tail, headLimit, tailLimit)
    requires var room := headLimit - |head|; taken == if |chunk| < room then |chunk| else room
    requires var size := |tail| + |chunk| - taken; over == if size > tailLimit then size - tailLimit else 0
    ensures Holds(seen + chunk, head + chunk[..taken], dropped + over, (tail + chunk[taken..])[over..],
                  headLimit, tailLimit)
  {
    var all := seen + chunk;
    assert all[..|head|] == seen[..|head|];
    if taken > 0 {
      assert seen == head && tail == [];
      assert all[..|head| + taken] == head + chunk[..taken];
      assert all[|head| + taken..] == chunk[taken..];
    } else {
      assert all[|head| + dropped..] == tail + chunk;
    }
    assert all[|head| + taken + dropped..] == tail + chunk[taken..];
    assert all[|head| + taken + dropped + over..] == (tail + chunk[taken..])[over..];
  }

  lemma HoldsAtEnd(output: Bytes, head: Bytes, dropped: nat, tail: Bytes, cap: nat)
    requires Holds(output, head, dropped, tail, HeadLimit(cap), cap - HeadLimit(cap))
    ensures LogOf(output, Some(cap))
         == head + (if dropped > 0 then Notice(cap, dropped, |head|, |tail|) else []) + tail
  {
    if dropped == 0 {
      assert output == output[..|head|] + output[|head|..];
    }
  }

  method WriteAll(log: Bytes, tail: seq<Bytes>) returns (log': Bytes)
    ensures log' == log + Concat(tail)
  {
    log' := log;
    for i := 0 to |tail|
      invariant log' == log + Concat(tail[..i])
    {
      assert tail[..i + 1] == tail[..i] + [tail[i]];
      ConcatSnoc(tail[..i], tail[i]);
      log' := log' + tail[i];
    }
    assert tail[..|tail|] == tail;
  }

  /** One chunk: fill the head, then append to the tail and trim it. */
  method Absorb(chunk: Bytes, head: Bytes, tail: seq<Bytes>, tailSize: nat, dropped: nat,
                headLimit: nat, tailLimit: nat, ghost seen: Bytes)
      returns (head': Bytes, tail': seq<Bytes>, tailSize': nat, dropped': nat)
    requires tailSize == |Concat(tail)|
    requires Holds(seen, head, dropped, Concat(tail), headLimit, tailLimit)
    ensures tailSize' == |Concat(tail')|
    ensures Holds(seen + chunk, head', dropped', Concat(tail'), headLimit, tailLimit)
  {
    var room := headLimit - |head|;
    var taken := if |chunk| < room then |chunk| else room;
    var size := tailSize + |chunk| - taken;
    HoldsNext(seen, head, dropped, Concat(tail), headLimit, tailLimit, chunk, taken,
              if size > tailLimit then size - tailLimit else 0);
    head', tail', tailSize', dropped' := head, tail, tailSize, dropped;
    var rest := chunk;
    if |head| < headLimit {
      head' := head + chunk[..taken];
      rest := chunk[taken..];
      if rest == [] {
        return;
      }
    }
    ConcatSnoc(tail, rest);
    tail', tailSize', dropped' := Trim(tail + [rest], tailSize + |rest|, tailLimit, dropped);
  }

  /** However the output is cut into chunks, the log depends on the output alone. */
  method RunLogged(chunks: seq<Bytes>, cap: Option<nat>) returns (log: Bytes)
    ensures log == LogOf(Output(chunks), cap)
  {
    if cap.None? {
      return Output(chunks);
    }
    hide LogOf, Notice, Output, HeadLimit;
    var headLimit := HeadLimit(cap.value);
    var tailLimit := cap.value - headLimit;
    var tailSize: nat, dropped: nat := 0, 0;
    var tail: seq<Bytes> := [];
    log := [];
    var k := 0;
    while k < |chunks| && chunks[k] != []
      invariant 0 <= k <= |chunks|
      invariant forall i | 0 <= i < k :: chunks[i] != []
      invariant tailSize == |Concat(tail)|
      invariant Holds(Concat(chunks[..k]), log, dropped, Concat(tail), headLimit, tailLimit)
    {
      assert chunks[..k + 1] == chunks[..k] + [chunks[k]];
      ConcatSnoc(chunks[..k], chunks[k]);
      log, tail, tailSize, dropped :=
        Absorb(chunks[k], log, tail, tailSize, dropped, headLimit, tailLimit, Concat(chunks[..k]));
      k := k + 1;
    }
    OutputUpTo(chunks, k);
    HoldsAtEnd(Output(chunks), log, dropped, Concat(tail), cap.value);
    if dropped > 0 {
      log := log + Notice(cap.value, dropped, |log|, tailSize);
    }
    log := WriteAll(log, tail);
  }
}
