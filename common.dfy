/** Values shared by every component of the face-attendance core: optional values,
    opaque image frames, bounding boxes, and the few pieces of Python numeric
    behaviour (int() truncation, // floor division, str() of an int, mean) that
    the components rely on. */
module Common {

  datatype Option<+T> = None | Some(value: T)

  /** The Python exceptions the core raises or lets escape; CvError is the
      cv2.error OpenCV raises when a call's arguments fail its checks. */
  datatype PyError = ValueError | ZeroDivisionError | KeyError | IndexError | RuntimeError | CvError

  /** A value, or the exception raised instead of returning it. */
  datatype Result<+T> = Ok(value: T) | Err(error: PyError)

  /** A decoded image. Pixels are never inspected by the core, so a frame is an
      identity token plus the geometry numpy exposes through `shape`. */
  datatype Frame = Frame(token: int, width: nat, height: nat, channels: nat)

  /** numpy's `frame.size`: the number of elements of the array. */
  function Size(f: Frame): nat
  {
    f.width * f.height * f.channels
  }

  /** A frame holding no pixels (`frame.size == 0`). */
  predicate IsEmpty(f: Frame)
  {
    Size(f) == 0
  }

  /** Usable frame: present and non-empty. */
  predicate IsUsable(f: Option<Frame>)
  {
    f.Some? && !IsEmpty(f.value)
  }

  /** cv2.resize: same picture, new geometry. */
  function Resized(f: Frame, width: nat, height: nat): (r: Frame)
    ensures r.token == f.token && r.channels == f.channels
    ensures r.width == width && r.height == height
  {
    f.(width := width, height := height)
  }

  /** The frame resized to (width, height) when its own geometry differs. */
  function Fit(f: Frame, width: nat, height: nat): (r: Frame)
    ensures r.width == width && r.height == height && r.token == f.token && r.channels == f.channels
    ensures f.width == width && f.height == height ==> r == f
  {
    if (f.height, f.width) != (height, width) then Resized(f, width, height) else f
  }

  /** A bounding box (x, y, w, h). The source keys per-face state by the string
      f"{x}_{y}_{w}_{h}", which is injective in the four integers, so the box
      itself serves as that key. */
  datatype Box = Box(x: int, y: int, w: int, h: int)

  /** A detector's float box given by its corners (x1, y1, x2, y2). */
  datatype Corners = Corners(x1: real, y1: real, x2: real, y2: real)

  /** Python's int() applied to a float: truncation toward zero. */
  function Trunc(r: real): (i: int)
    ensures r >= 0.0 ==> i >= 0 && i as real <= r < i as real + 1.0
    ensures r < 0.0 ==> i <= 0 && i as real - 1.0 < r <= i as real
  {
    if r >= 0.0 then r.Floor else -((-r).Floor)
  }

  /** `bbox.astype(int)` followed by w, h = x2 - x, y2 - y: each corner is
      truncated toward zero before the size is taken. */
  function CornersToBox(c: Corners): (b: Box)
    ensures b.x == Trunc(c.x1) && b.y == Trunc(c.y1)
    ensures b.x + b.w == Trunc(c.x2) && b.y + b.h == Trunc(c.y2)
  {
    Box(Trunc(c.x1), Trunc(c.y1), Trunc(c.x2) - Trunc(c.x1), Trunc(c.y2) - Trunc(c.y1))
  }

  /** Python's // on integers: the quotient rounded toward negative infinity. */
  function FloorDiv(a: int, b: int): (q: int)
    requires b != 0
    ensures b > 0 ==> q * b <= a < q * b + b
    ensures b < 0 ==> q * b + b < a <= q * b
  {
    if b > 0 then a / b
    else if a % b == 0 then a / b
    else a / b - 1
  }

  /** Python's % on integers: the remainder takes the sign of the divisor. */
  function FloorMod(a: int, b: int): (r: int)
    requires b != 0
    ensures a == FloorDiv(a, b) * b + r
    ensures b > 0 ==> 0 <= r < b
    ensures b < 0 ==> b < r <= 0
  {
    a - FloorDiv(a, b) * b
  }

  function Abs(a: int): nat
  {
    if a < 0 then -a else a
  }

  function RAbs(r: real): (a: real)
    ensures a >= 0.0 && (a == r || a == -r)
  {
    if r < 0.0 then -r else r
  }

  function RMin(a: real, b: real): (m: real)
    ensures m <= a && m <= b && (m == a || m == b)
  {
    if a <= b then a else b
  }

  function RMax(a: real, b: real): (m: real)
    ensures m >= a && m >= b && (m == a || m == b)
  {
    if a >= b then a else b
  }

  function Min(a: int, b: int): (m: int)
    ensures m <= a && m <= b && (m == a || m == b)
  {
    if a <= b then a else b
  }

  function Max(a: int, b: int): (m: int)
    ensures m >= a && m >= b && (m == a || m == b)
  {
    if a >= b then a else b
  }

  /** Sum of a list of reals, peeled from the back so that appending one value is
      one unfolding. */
  function Sum(s: seq<real>): real
  {
    if s == [] then 0.0 else Sum(s[..|s| - 1]) + s[|s| - 1]
  }

  /** numpy.mean of a non-empty list. */
  function Mean(s: seq<real>): real
    requires |s| > 0
  {
    Sum(s) / (|s| as real)
  }

  /** Every element of `s` equals `v`. */
  predicate AllEqual(s: seq<real>, v: real)
  {
    forall i :: 0 <= i < |s| ==> s[i] == v
  }

  lemma {:induction false} SumConstant(s: seq<real>, v: real)
    requires AllEqual(s, v)
    ensures Sum(s) == (|s| as real) * v
  {
    if s != [] {
      SumConstant(s[..|s| - 1], v);
    }
  }

  /** The mean of a list whose elements all equal `v` is `v`. */
  lemma MeanConstant(s: seq<real>, v: real)
    requires |s| > 0 && AllEqual(s, v)
    ensures Mean(s) == v
  {
    SumConstant(s, v);
  }

  lemma {:induction false} SumBounds(s: seq<real>, lo: real, hi: real)
    requires forall i :: 0 <= i < |s| ==> lo <= s[i] <= hi
    ensures (|s| as real) * lo <= Sum(s) <= (|s| as real) * hi
  {
    if s != [] {
      SumBounds(s[..|s| - 1], lo, hi);
    }
  }

  /** The mean lies between any common lower and upper bound of the samples. */
  lemma MeanBounds(s: seq<real>, lo: real, hi: real)
    requires |s| > 0
    requires forall i :: 0 <= i < |s| ==> lo <= s[i] <= hi
    ensures lo <= Mean(s) <= hi
  {
    SumBounds(s, lo, hi);
    var n := |s| as real;
    assert n * lo <= Sum(s) <= n * hi;
    assert Sum(s) / n >= lo by {
      assert Sum(s) >= lo * n;
    }
    assert Sum(s) / n <= hi by {
      assert Sum(s) <= hi * n;
    }
  }

  function DigitChar(d: nat): char
    requires d < 10
  {
    "0123456789"[d]
  }

  /** str() of a non-negative integer, in decimal without leading zeros. */
  function NatToString(n: nat): (s: string)
    ensures |s| >= 1
    ensures forall i :: 0 <= i < |s| ==> '0' <= s[i] <= '9'
  {
    if n < 10 then [DigitChar(n)] else NatToString(n / 10) + [DigitChar(n % 10)]
  }

  /** str() of an integer. */
  function IntToString(i: int): (s: string)
    ensures |s| >= 1
  {
    if i < 0 then "-" + NatToString(-i) else NatToString(i)
  }

  /** str.startswith. */
  predicate StartsWith(s: string, prefix: string)
  {
    |prefix| <= |s| && s[..|prefix|] == prefix
  }

  /** A string that starts with `a + b` starts with `a`. */
  lemma StartsWithShorter(s: string, a: string, b: string)
    requires StartsWith(s, a + b)
    ensures StartsWith(s, a)
  {
    assert s[..|a|] == (a + b)[..|a|];
  }

  /** startswith is transitive. */
  lemma StartsWithTrans(s: string, t: string, u: string)
    requires StartsWith(s, t) && StartsWith(t, u)
    ensures StartsWith(s, u)
  {
    assert s[..|u|] == s[..|t|][..|u|];
  }

  /** A concatenation starts with its first part. */
  lemma StartsWithConcat(a: string, b: string)
    ensures StartsWith(a + b, a)
  {
    assert (a + b)[..|a|] == a;
  }

  /** str.endswith. */
  predicate EndsWith(s: string, suffix: string)
  {
    |suffix| <= |s| && s[|s| - |suffix|..] == suffix
  }

  /** The ASCII characters str.strip() removes by default. */
  predicate IsSpace(c: char)
  {
    c == ' ' || c == '\t' || c == '\n' || c == '\r' || c == '\U{000B}' || c == '\U{000C}'
      || ('\U{001C}' <= c <= '\U{001F}')
  }

  /** str.lstrip(): the suffix left once the leading blanks are removed. */
  function TrimLeft(s: string): (r: string)
    ensures |r| <= |s| && r == s[|s| - |r|..]
    ensures r == [] || !IsSpace(r[0])
    ensures s != [] && !IsSpace(s[|s| - 1]) ==> r != []
  {
    if s != [] && IsSpace(s[0]) then TrimLeft(s[1..]) else s
  }

  /** str.rstrip(): the prefix left once the trailing blanks are removed. */
  function TrimRight(s: string): (r: string)
    ensures |r| <= |s| && r == s[..|r|]
    ensures r == [] || !IsSpace(r[|r| - 1])
  {
    if s != [] && IsSpace(s[|s| - 1]) then TrimRight(s[..|s| - 1]) else s
  }

  /** What TrimLeft removes is blanks only. */
  lemma {:induction false} TrimLeftRemovesBlanks(s: string)
    ensures forall i :: 0 <= i < |s| - |TrimLeft(s)| ==> IsSpace(s[i])
  {
    if s != [] && IsSpace(s[0]) {
      TrimLeftRemovesBlanks(s[1..]);
      assert forall i :: 1 <= i < |s| - |TrimLeft(s)| ==> s[i] == s[1..][i - 1];
    }
  }

  /** What TrimRight removes is blanks only. */
  lemma {:induction false} TrimRightRemovesBlanks(s: string)
    ensures forall i :: |TrimRight(s)| <= i < |s| ==> IsSpace(s[i])
  {
    if s != [] && IsSpace(s[|s| - 1]) {
      TrimRightRemovesBlanks(s[..|s| - 1]);
      assert forall i :: |TrimRight(s)| <= i < |s| - 1 ==> s[i] == s[..|s| - 1][i];
    }
  }

  /** `s` is k blanks, then `r`, then blanks to the end. */
  predicate StrippedAt(s: string, r: string, k: int)
  {
    && 0 <= k <= |s| - |r|
    && (forall i :: 0 <= i < |r| ==> s[k + i] == r[i])
    && (forall i :: 0 <= i < k ==> IsSpace(s[i]))
    && (forall i :: k + |r| <= i < |s| ==> IsSpace(s[i]))
  }

  /** str.strip() with no argument. */
  function Strip(s: string): (r: string)
    ensures r == [] || (!IsSpace(r[0]) && !IsSpace(r[|r| - 1]))
  {
    TrimRight(TrimLeft(s))
  }

  /** What str.strip() returns: `s` is a run of blanks, then the result, then
      another run of blanks, and the result neither starts nor ends with a
      blank. Since the result is empty or bounded by non-blanks, this split
      is the only one. */
  lemma StripSplit(s: string)
    ensures exists k :: StrippedAt(s, Strip(s), k)
    ensures Strip(s) == [] || (!IsSpace(Strip(s)[0]) && !IsSpace(Strip(s)[|Strip(s)| - 1]))
  {
    var t := TrimLeft(s);
    var r := TrimRight(t);
    var k := |s| - |t|;
    TrimLeftRemovesBlanks(s);
    TrimRightRemovesBlanks(t);
    assert t == s[k..];
    assert r == t[..|r|];
    forall i | 0 <= i < |r|
      ensures s[k + i] == r[i]
    {
      assert r[i] == t[i];
    }
    forall i | k + |r| <= i < |s|
      ensures IsSpace(s[i])
    {
      assert s[i] == t[i - k];
    }
    assert Strip(s) == r;
    assert StrippedAt(s, r, k);
  }

  /** Leading blanks of a concatenation come from the first part, unless that
      part is blank throughout. */
  lemma {:induction false} TrimLeftConcat(a: string, b: string)
    ensures TrimLeft(a + b) == if TrimLeft(a) == [] then TrimLeft(b) else TrimLeft(a) + b
  {
    if a == [] {
      assert a + b == b;
    } else {
      assert (a + b)[0] == a[0];
      assert (a + b)[1..] == a[1..] + b;
      if IsSpace(a[0]) {
        TrimLeftConcat(a[1..], b);
        assert TrimLeft(a) == TrimLeft(a[1..]);
        assert TrimLeft(a + b) == TrimLeft(a[1..] + b);
      } else {
        assert TrimLeft(a) == a;
        assert TrimLeft(a + b) == a + b;
      }
    }
  }

  /** A string starting with a non-blank is its own TrimLeft. */
  lemma TrimLeftKeeps(a: string)
    requires a != [] && !IsSpace(a[0])
    ensures TrimLeft(a) == a
  {
  }

  /** A trailing blank is dropped by TrimRight. */
  lemma TrimRightBlank(a: string, c: char)
    requires IsSpace(c)
    ensures TrimRight(a + [c]) == TrimRight(a)
  {
    assert (a + [c])[..|a + [c]| - 1] == a;
  }

  /** A string ending in a non-blank is its own TrimRight. */
  lemma TrimRightKeeps(a: string)
    requires a != [] && !IsSpace(a[|a| - 1])
    ensures TrimRight(a) == a
  {
  }

  /** Stripping a line that ends in a non-blank followed by a newline removes
      the newline and the leading blanks only. */
  lemma StripLine(u: string)
    requires u != [] && !IsSpace(u[|u| - 1])
    ensures Strip(u + "\n") == TrimLeft(u)
    ensures TrimLeft(u) != [] && TrimLeft(u)[|TrimLeft(u)| - 1] == u[|u| - 1]
  {
    var t := TrimLeft(u);
    TrimLeftConcat(u, "\n");
    assert TrimLeft(u + "\n") == t + "\n";
    assert t + "\n" == t + ['\n'];
    TrimRightBlank(t, '\n');
    TrimRightKeeps(t);
  }

  /** ", ".join(items). */
  function Join(items: seq<string>, sep: string): string
  {
    if items == [] then ""
    else if |items| == 1 then items[0]
    else items[0] + sep + Join(items[1..], sep)
  }

  /** The keys of `s` occur at most once. */
  predicate Distinct<T(==)>(s: seq<T>)
  {
    forall i, j :: 0 <= i < j < |s| ==> s[i] != s[j]
  }

  function SeqToSet<T(==)>(s: seq<T>): set<T>
  {
    set x | x in s
  }

  /** The elements of `s` that are in `keep`, in their order. */
  function KeepIn<T(==,!new)>(s: seq<T>, keep: set<T>): (r: seq<T>)
    ensures forall x :: x in r <==> x in s && x in keep
    ensures Distinct(s) ==> Distinct(r)
  {
    if s == [] then []
    else
      var prefix := KeepIn(s[..|s| - 1], keep);
      var last := s[|s| - 1];
      assert forall x :: x in s[..|s| - 1] ==> x in s;
      if last in keep then prefix + [last] else prefix
  }

  /** Keeping every element keeps the sequence as it is. */
  lemma {:induction false} KeepInAll<T(!new)>(s: seq<T>, keep: set<T>)
    requires forall x :: x in s ==> x in keep
    ensures KeepIn(s, keep) == s
  {
    if s != [] {
      assert forall x :: x in s[..|s| - 1] ==> x in s;
      KeepInAll(s[..|s| - 1], keep);
      assert s[..|s| - 1] + [s[|s| - 1]] == s;
    }
  }

  /** deque(maxlen).append(x), and equally list.append(x) followed by one
      pop(0) when the list has outgrown its window: x becomes the newest element
      and, when the sequence was already full, the oldest element drops out. */
  function BoundedAppend<T>(s: seq<T>, x: T, maxLen: nat): (r: seq<T>)
    requires 1 <= maxLen && |s| <= maxLen
    ensures |r| == Min(|s| + 1, maxLen)
    ensures r[|r| - 1] == x
  {
    if |s| < maxLen then s + [x] else s[1..] + [x]
  }

  /** The newest `n` elements of `s` (all of them when there are fewer). */
  function LastN<T>(s: seq<T>, n: nat): seq<T>
  {
    if |s| <= n then s else s[|s| - n..]
  }

  /** A bounded append keeps exactly the newest `maxLen` of the old contents
      plus the new element. */
  lemma BoundedAppendKeepsNewest<T>(s: seq<T>, x: T, maxLen: nat)
    requires 1 <= maxLen && |s| <= maxLen
    ensures BoundedAppend(s, x, maxLen) == LastN(s + [x], maxLen)
  {
    if |s| == maxLen {
      assert s[1..] + [x] == (s + [x])[1..];
    }
  }

  /** Bounded appends of `xs` one after another, starting from `s`. */
  function AppendAll<T>(s: seq<T>, xs: seq<T>, maxLen: nat): (r: seq<T>)
    requires 1 <= maxLen && |s| <= maxLen
    ensures |r| <= maxLen
  {
    if xs == [] then s
    else BoundedAppend(AppendAll(s, xs[..|xs| - 1], maxLen), xs[|xs| - 1], maxLen)
  }

  /** Trimming to the newest `n` before appending changes nothing about the
      newest `n` after appending. */
  lemma LastNAppend<T>(t: seq<T>, x: T, n: nat)
    requires 1 <= n
    ensures LastN(LastN(t, n) + [x], n) == LastN(t + [x], n)
  {
    if |t| > n {
      var u := t[|t| - n..];
      assert (u + [x])[1..] == (t + [x])[|t| + 1 - n..];
    }
  }

  /** Whatever was appended, a bounded sequence holds the newest `maxLen`
      elements, oldest first. */
  lemma {:induction false} AppendAllKeepsNewest<T>(s: seq<T>, xs: seq<T>, maxLen: nat)
    requires 1 <= maxLen && |s| <= maxLen
    ensures AppendAll(s, xs, maxLen) == LastN(s + xs, maxLen)
  {
    if xs == [] {
      assert s + xs == s;
    } else {
      var init := xs[..|xs| - 1];
      var x := xs[|xs| - 1];
      var prev := AppendAll(s, init, maxLen);
      assert xs == init + [x];
      assert s + xs == (s + init) + [x];
      calc {
        AppendAll(s, xs, maxLen);
        BoundedAppend(prev, x, maxLen);
        { BoundedAppendKeepsNewest(prev, x, maxLen); }
        LastN(prev + [x], maxLen);
        { AppendAllKeepsNewest(s, init, maxLen); }
        LastN(LastN(s + init, maxLen) + [x], maxLen);
        { LastNAppend(s + init, x, maxLen); }
        LastN((s + init) + [x], maxLen);
      }
    }
  }

  /** The entries of `m` whose key is in `keep`. */
  function RestrictKeys<K, V>(m: map<K, V>, keep: set<K>): (r: map<K, V>)
    ensures r.Keys == m.Keys * keep
    ensures forall k :: k in r ==> r[k] == m[k]
  {
    map k | k in m && k in keep :: m[k]
  }

  /** A map that has exactly the kept keys of `m`, each with its value in `m`,
      is the restriction of `m`. */
  lemma RestrictKeysFrom<K, V>(m: map<K, V>, r: map<K, V>, keep: set<K>)
    requires r.Keys == m.Keys * keep
    requires forall k :: k in r ==> k in m && r[k] == m[k]
    ensures r == RestrictKeys(m, keep)
  {
  }

  /** The stale-id cleanup shared by the trackers: every key of `m` outside
      `current` is deleted, one at a time. */
  method DeleteStale<V>(m: map<Box, V>, current: set<Box>) returns (r: map<Box, V>)
    ensures r == RestrictKeys(m, current)
  {
    r := m;
    var stale := m.Keys - current;
    while stale != {}
      invariant stale !! current
      invariant r.Keys == m.Keys * (current + stale)
      invariant forall k :: k in r ==> k in m && r[k] == m[k]
      decreases |stale|
    {
      var k :| k in stale;
      r := r - {k};
      stale := stale - {k};
    }
    RestrictKeysFrom(m, r, current);
  }

  /** The history of `b` before an observation: empty for an unseen box. */
  function Prior(history: map<Box, seq<real>>, b: Box): seq<real>
  {
    if b in history then history[b] else []
  }

  /** Every per-box history holds between one and `window` values. */
  ghost predicate WindowsFit(history: map<Box, seq<real>>, window: nat)
  {
    forall b :: b in history ==> 1 <= |history[b]| <= window
  }

  /** One observation: `value` joins the window kept for `b`, the oldest
      value dropping out once `window` are held. */
  function Observe(history: map<Box, seq<real>>, b: Box, value: real, window: nat): (r: map<Box, seq<real>>)
    requires 1 <= window && WindowsFit(history, window)
    ensures r.Keys == history.Keys + {b} && WindowsFit(r, window)
    ensures r[b][|r[b]| - 1] == value
    ensures forall k :: k in history && k != b ==> r[k] == history[k]
  {
    history[b := BoundedAppend(Prior(history, b), value, window)]
  }

  /** The boxes of a detection list, as a set of keys. */
  function BoxIds(boxes: seq<Box>): (ids: set<Box>)
    ensures forall b :: b in ids <==> b in boxes
  {
    set b | b in boxes
  }
}
