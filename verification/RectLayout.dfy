/** The rectangles that another process moves through shared memory: it computes from
    the configuration where they lie, and the GPU process computes the same layout
    from a linked list of uniforms. */
module RectLayout {
  import opened Bytes

  /** An entry of the controls array: its name, type and value, where they are
      strings. */
  datatype Control = Control(name: Option<string>, kind: Option<string>, value: Option<string>)

  // ----- The client's view -----

  const MAX_RECTS: nat := 32
  const RECTS_NAME: string := "vRects["

  const SIZES: seq<(string, nat)> := [
    ("int", 4), ("float", 4),
    ("vec2", 8), ("vec3", 12), ("vec4", 16),
    ("ivec2", 8), ("ivec3", 12), ("ivec4", 16),
    ("mat2", 16), ("mat3", 36), ("mat4", 64)]

  /** The size of the first entry of a table with this name. */
  function Lookup(table: seq<(string, nat)>, kind: string): Option<nat> {
    if table == [] then None
    else if table[0].0 == kind then Some(table[0].1)
    else Lookup(table[1..], kind)
  }

  function ControlSize(c: Control): Option<nat> {
    if c.name.None? || c.kind.None? then None else Lookup(SIZES, c.kind.value)
  }

  method FindSize(c: Control) returns (size: int)
    ensures size == if ControlSize(c).Some? then ControlSize(c).value else -1
  {
    if c.name.None? || c.kind.None? {
      return -1;
    }
    for i := 0 to |SIZES|
      invariant Lookup(SIZES, c.kind.value) == Lookup(SIZES[i..], c.kind.value)
    {
      if c.kind.value == SIZES[i].0 {
        return SIZES[i].1;
      }
    }
    return -1;
  }

  // ----- The GPU's view -----

  datatype Type =
    | Unknown | Int | Float | FVec2 | FVec3 | FVec4 | IVec2 | IVec3 | IVec4 | Mat2 | Mat3 | Mat4 | Sampler
    | Func(out: Type)

  /** The type of a uniform; `known` are the functions there are, with their types. */
  function TypeOf(c: Control, known: map<string, Type>): Type {
    if c.kind.None? then Unknown
    else
      var kind := c.kind.value;
      if kind == "int" then Int
      else if kind == "float" then Float
      else if kind == "vec2" then FVec2
      else if kind == "vec3" then FVec3
      else if kind == "vec4" then FVec4
      else if kind == "ivec2" then IVec2
      else if kind == "ivec3" then IVec3
      else if kind == "ivec4" then IVec4
      else if kind == "mat2" then Mat2
      else if kind == "mat3" then Mat3
      else if kind == "mat4" then Mat4
      else if kind == "sampler" && c.value.Some? then Sampler
      else if kind == "func" && c.value.Some? && c.value.value in known then Func(known[c.value.value])
      else Unknown
  }

  function UniformSize(t: Type): Option<nat> {
    match t
    case Int => Some(4)
    case Float => Some(4)
    case FVec2 => Some(4 * 2)
    case FVec3 => Some(4 * 3)
    case FVec4 => Some(4 * 4)
    case IVec2 => Some(4 * 2)
    case IVec3 => Some(4 * 3)
    case IVec4 => Some(4 * 4)
    case Mat2 => Some(4 * 2 * 2)
    case Mat3 => Some(4 * 3 * 3)
    case Mat4 => Some(4 * 4 * 4)
    case _ => None
  }

  /** The two programs agree on the size of every entry that has a name. */
  lemma SizesAgree(c: Control, known: map<string, Type>)
    ensures c.name.Some? ==> ControlSize(c) == UniformSize(TypeOf(c, known))
    ensures c.name.None? ==> ControlSize(c) == None
    ensures UniformSize(TypeOf(c, known)).Some? ==> UniformSize(TypeOf(c, known)).value > 0
  {
    hide Lookup;
    if c.kind.Some? {
      LookupSizes(c.kind.value);
    }
  }

  lemma LookupSizes(kind: string)
    ensures Lookup(SIZES, kind) ==
      if kind == "int" then Some(4) else if kind == "float" then Some(4)
      else if kind == "vec2" then Some(8) else if kind == "vec3" then Some(12) else if kind == "vec4" then Some(16)
      else if kind == "ivec2" then Some(8) else if kind == "ivec3" then Some(12) else if kind == "ivec4" then Some(16)
      else if kind == "mat2" then Some(16) else if kind == "mat3" then Some(36) else if kind == "mat4" then Some(64)
      else None
  {
    LookupAt(kind, 0);
    LookupAt(kind, 1);
    LookupAt(kind, 2);
    LookupAt(kind, 3);
    LookupAt(kind, 4);
    LookupAt(kind, 5);
    LookupAt(kind, 6);
    LookupAt(kind, 7);
    LookupAt(kind, 8);
    LookupAt(kind, 9);
    LookupAt(kind, 10);
    assert SIZES[11..] == [];
    assert SIZES[0..] == SIZES;
  }

  lemma LookupAt(kind: string, i: nat)
    requires i < |SIZES|
    ensures Lookup(SIZES[i..], kind) == if SIZES[i].0 == kind then Some(SIZES[i].1) else Lookup(SIZES[i + 1..], kind)
  {
    assert SIZES[i..][1..] == SIZES[i + 1..];
  }

  // ----- The rectangles -----

  predicate IsSpace(c: char) {
    c in " \t\n\r\U{B}\U{C}"
  }

  predicate IsDigit(c: char) {
    '0' <= c <= '9'
  }

  function SkipSpaces(s: string): string {
    if s != "" && IsSpace(s[0]) then SkipSpaces(s[1..]) else s
  }

  function Digits(s: string, value: nat): nat {
    if s != "" && IsDigit(s[0]) then Digits(s[1..], value * 10 + (s[0] as int - '0' as int)) else value
  }

  /** The number at the start of a string, as scanned by "%d". */
  function Scan(s: string): Option<int> {
    var t := SkipSpaces(s);
    var signed := t != "" && (t[0] == '-' || t[0] == '+');
    var u := if signed then t[1..] else t;
    var n: int := Digits(u, 0);
    if u == "" || !IsDigit(u[0]) then None
    else if signed && t[0] == '-' then Some(-n)
    else Some(n)
  }

  /** A number written out in digits. */
  function Decimal(n: nat): (s: string)
    ensures s != "" && IsDigit(s[0])
  {
    var digit := [('0' as int + n % 10) as char];
    if n < 10 then digit else Decimal(n / 10) + digit
  }

  /** What may stand behind a number. */
  predicate NoDigit(s: string) {
    s == "" || !IsDigit(s[0])
  }

  lemma {:induction false} DigitsOfSome(a: string, b: string, value: nat)
    requires forall i | 0 <= i < |a| :: IsDigit(a[i])
    ensures Digits(a + b, value) == Digits(b, Digits(a, value))
    decreases |a|
  {
    if a == "" {
      assert a + b == b;
    } else {
      assert (a + b)[1..] == a[1..] + b;
      DigitsOfSome(a[1..], b, value * 10 + (a[0] as int - '0' as int));
    }
  }

  lemma {:induction false} DecimalIsDigits(n: nat)
    ensures forall i | 0 <= i < |Decimal(n)| :: IsDigit(Decimal(n)[i])
    ensures Digits(Decimal(n), 0) == n
  {
    var digit := [('0' as int + n % 10) as char];
    if n >= 10 {
      DecimalIsDigits(n / 10);
      DigitsOfSome(Decimal(n / 10), digit, 0);
    }
    assert digit[1..] == "";
  }

  lemma {:induction false} SpacesAreSkipped(spaces: string, s: string)
    requires (forall i | 0 <= i < |spaces| :: IsSpace(spaces[i])) && (s == "" || !IsSpace(s[0]))
    ensures SkipSpaces(spaces + s) == s
    decreases |spaces|
  {
    if spaces == "" {
      assert spaces + s == s;
    } else {
      assert (spaces + s)[1..] == spaces[1..] + s;
      SpacesAreSkipped(spaces[1..], s);
    }
  }

  function Signed(sign: string, n: int): int {
    if sign == "-" then -n else n
  }

  /** A number is read whatever stands behind it, behind any white space and a sign. */
  lemma ScanReadsNumber(spaces: string, sign: string, n: nat, rest: string)
    requires (forall i | 0 <= i < |spaces| :: IsSpace(spaces[i])) && sign in ["", "+", "-"] && NoDigit(rest)
    ensures Scan(spaces + (sign + Decimal(n) + rest)) == Some(Signed(sign, n))
  {
    hide SkipSpaces, Digits, Decimal;
    var s := Decimal(n) + rest;
    var t := sign + s;
    assert sign + Decimal(n) + rest == t;
    assert t[0] == if sign == "" then Decimal(n)[0] else sign[0];
    SpacesAreSkipped(spaces, t);
    DecimalIsDigits(n);
    DigitsOfSome(Decimal(n), rest, 0);
    DigitsEnd(rest, n);
    assert sign != "" ==> t[1..] == s;
    assert sign == "" ==> t == s;
    assert s[0] == Decimal(n)[0];
    assert Digits(s, 0) == n;
  }

  lemma DigitsEnd(rest: string, value: nat)
    requires NoDigit(rest)
    ensures Digits(rest, value) == value
  {}

  datatype Rect = Rect(index: int, offset: nat)

  /** The index of a control that is a rectangle. */
  function RectIndex(c: Control): Option<int> {
    if ControlSize(c) == Some(16) && RECTS_NAME <= c.name.value && c.kind == Some("vec4") then
      Scan(c.name.value[|RECTS_NAME|..])
    else
      None
  }

  /** The name of a rectangle gives its index. */
  lemma RectHasIndex(n: nat, rest: string, value: Option<string>)
    requires NoDigit(rest)
    ensures RectIndex(Control(Some("vRects[" + Decimal(n) + rest), Some("vec4"), value)) == Some(n)
  {
    hide Scan, Decimal;
    var name := "vRects[" + Decimal(n) + rest;
    ScanReadsNumber("", "", n, rest);
    assert name[|RECTS_NAME|..] == "" + ("" + Decimal(n) + rest);
    assert ControlSize(Control(Some(name), Some("vec4"), value)) == Some(16) by { VectorSize(Some(name), value); }
  }

  lemma VectorSize(name: Option<string>, value: Option<string>)
    ensures name.Some? ==> ControlSize(Control(name, Some("vec4"), value)) == Some(16)
  {
    LookupSizes("vec4");
  }

  /** The bytes of the controls from entry j on. */
  function SizeFrom(controls: seq<Control>, j: nat): nat
    requires j <= |controls|
    decreases |controls| - j
  {
    if j == |controls| then 0
    else
      SizeFrom(controls, j + 1) + if ControlSize(controls[j]).Some? then ControlSize(controls[j]).value else 0
  }

  /** Put a rectangle behind those that do not have a higher index. */
  function Insert(rects: seq<Rect>, r: Rect): seq<Rect> {
    if rects == [] || rects[|rects| - 1].index <= r.index then rects + [r]
    else Insert(rects[..|rects| - 1], r) + [rects[|rects| - 1]]
  }

  /** The rectangles among the controls from entry j on: they are met from the last
      to the first, and at most 32 are kept. */
  function RectsFrom(controls: seq<Control>, j: nat): seq<Rect>
    requires j <= |controls|
    decreases |controls| - j
  {
    if j == |controls| then []
    else
      var rects := RectsFrom(controls, j + 1);
      if RectIndex(controls[j]).Some? && |rects| < MAX_RECTS then
        Insert(rects, Rect(RectIndex(controls[j]).value, SizeFrom(controls, j + 1)))
      else
        rects
  }

  method InsertRect(rects: array<Rect>, n: nat, r: Rect)
    requires n < rects.Length
    modifies rects
    ensures rects[..n + 1] == Insert(old(rects[..n]), r)
  {
    ghost var was := rects[..n];
    var k := n;
    while k > 0 && rects[k - 1].index > r.index
      invariant 0 <= k <= n
      invariant forall i | 0 <= i < k :: rects[i] == was[i]
      invariant forall i | k < i <= n :: rects[i] == was[i - 1]
      invariant forall i | k <= i < n :: was[i].index > r.index
    {
      rects[k] := rects[k - 1];
      k := k - 1;
    }
    rects[k] := r;
    InsertPlace(was, k, r);
    assert rects[..n + 1] == was[..k] + [r] + was[k..];
  }

  lemma {:induction false} InsertPlace(s: seq<Rect>, k: nat, r: Rect)
    requires k <= |s| && (k > 0 ==> s[k - 1].index <= r.index)
    requires forall i | k <= i < |s| :: s[i].index > r.index
    ensures Insert(s, r) == s[..k] + [r] + s[k..]
  {
    var n := |s|;
    if k < n {
      InsertPlace(s[..n - 1], k, r);
      assert s[..n - 1][..k] == s[..k] && s[..n - 1][k..] + [s[n - 1]] == s[k..];
    } else {
      assert s[..k] == s;
    }
  }

  /** Lay the controls out: the total size, or -1 if there is no rectangle. */
  method Layout(controls: seq<Control>, rects: array<Rect>) returns (total: int, nrects: nat)
    requires rects.Length == MAX_RECTS
    modifies rects
    ensures nrects <= MAX_RECTS && rects[..nrects] == RectsFrom(controls, 0)
    ensures total == if nrects == 0 then -1 else SizeFrom(controls, 0)
  {
    hide ControlSize, RectIndex;
    var size := 0;
    nrects := 0;
    for j := |controls| downto 0
      invariant size == SizeFrom(controls, j)
      invariant nrects <= MAX_RECTS && rects[..nrects] == RectsFrom(controls, j)
    {
      InsertGrows(RectsFrom(controls, j + 1));
      var csize := FindSize(controls[j]);
      RectHasSize(controls[j]);
      if csize < 0 {
        continue;
      }
      var index := RectIndex(controls[j]);
      if index.Some? && nrects < MAX_RECTS {
        InsertRect(rects, nrects, Rect(index.value, size));
        nrects := nrects + 1;
      }
      size := size + csize;
    }
    if nrects == 0 {
      return -1, 0;
    }
    return size, nrects;
  }

  lemma RectHasSize(c: Control)
    ensures RectIndex(c).Some? ==> ControlSize(c) == Some(16)
  {}

  lemma InsertGrows(rects: seq<Rect>)
    ensures forall r :: |Insert(rects, r)| == |rects| + 1
  {
    forall r ensures |Insert(rects, r)| == |rects| + 1 { InsertSize(rects, r); }
  }

  lemma {:induction false} InsertSize(rects: seq<Rect>, r: Rect)
    ensures |Insert(rects, r)| == |rects| + 1
  {
    if rects != [] { InsertSize(rects[..|rects| - 1], r); }
  }

  // ----- What the client computes -----

  /** The rectangles from entry j on, in the order in which they are met. */
  function Found(controls: seq<Control>, j: nat): seq<Rect>
    requires j <= |controls|
    decreases |controls| - j
  {
    if j == |controls| then []
    else
      var index := RectIndex(controls[j]);
      Found(controls, j + 1) + if index.Some? then [Rect(index.value, SizeFrom(controls, j + 1))] else []
  }

  function First(rects: seq<Rect>): seq<Rect> {
    if |rects| <= MAX_RECTS then rects else rects[..MAX_RECTS]
  }

  /** By index, and where the index is the same by offset. */
  predicate Sorted(rects: seq<Rect>) {
    forall i, k | 0 <= i < k < |rects| ::
      rects[i].index < rects[k].index || (rects[i].index == rects[k].index && rects[i].offset < rects[k].offset)
  }

  /** The 16 bytes of the rectangles lie below a bound and do not overlap. */
  predicate Disjoint(rects: seq<Rect>, bound: nat) {
    && (forall i | 0 <= i < |rects| :: rects[i].offset + 16 <= bound)
    && (forall i, k | 0 <= i < |rects| && 0 <= k < |rects| && i != k ::
          rects[i].offset + 16 <= rects[k].offset || rects[k].offset + 16 <= rects[i].offset)
  }

  lemma {:induction false} Place(s: seq<Rect>, r: Rect) returns (k: nat)
    ensures k <= |s| && Insert(s, r) == s[..k] + [r] + s[k..]
    ensures k > 0 ==> s[k - 1].index <= r.index
    ensures forall i | k <= i < |s| :: s[i].index > r.index
  {
    k := |s|;
    while k > 0 && s[k - 1].index > r.index
      invariant 0 <= k <= |s| && forall i | k <= i < |s| :: s[i].index > r.index
    {
      k := k - 1;
    }
    InsertPlace(s, k, r);
  }

  lemma InsertKeepsSorted(s: seq<Rect>, r: Rect, bound: nat)
    requires Sorted(s) && Disjoint(s, bound) && r.offset >= bound
    ensures Sorted(Insert(s, r))
  {
    hide Insert;
    var k := Place(s, r);
    var t := Insert(s, r);
    forall i, j | 0 <= i < j < |t|
      ensures t[i].index < t[j].index || (t[i].index == t[j].index && t[i].offset < t[j].offset)
    {
      if j == k {
        assert k > 0 && i <= k - 1;
        assert i < k - 1 ==> s[i].index <= s[k - 1].index;
      }
    }
  }

  lemma InsertKeepsDisjoint(s: seq<Rect>, r: Rect, bound: nat)
    requires Disjoint(s, bound) && r.offset >= bound
    ensures Disjoint(Insert(s, r), r.offset + 16)
  {
    hide Insert;
    var k := Place(s, r);
    var t := Insert(s, r);
    assert forall i | 0 <= i < |t| :: t[i] == if i < k then s[i] else if i == k then r else s[i - 1];
  }

  lemma InsertKeepsAll(s: seq<Rect>, r: Rect)
    ensures multiset(Insert(s, r)) == multiset(s) + multiset{r}
  {
    hide Insert;
    var k := Place(s, r);
    assert s == s[..k] + s[k..];
  }

  /** The slots are the first 32 rectangles met. */
  lemma {:induction false} SlotsAreTheFirst(controls: seq<Control>, j: nat)
    requires j <= |controls|
    ensures multiset(RectsFrom(controls, j)) == multiset(First(Found(controls, j)))
    ensures |RectsFrom(controls, j)| == |First(Found(controls, j))|
    decreases |controls| - j
  {
    hide Insert, RectIndex, SizeFrom, First;
    if j < |controls| {
      SlotsAreTheFirst(controls, j + 1);
      var found := Found(controls, j + 1);
      if RectIndex(controls[j]).Some? {
        var r := Rect(RectIndex(controls[j]).value, SizeFrom(controls, j + 1));
        InsertKeepsAll(RectsFrom(controls, j + 1), r);
        InsertSize(RectsFrom(controls, j + 1), r);
        FirstOfMore(found, r);
      } else {
        assert Found(controls, j) == found;
      }
    } else {
      FirstOfNone();
    }
  }

  lemma FirstOfNone()
    ensures First([]) == []
  {}

  lemma FirstOfMore(found: seq<Rect>, r: Rect)
    ensures if |First(found)| < MAX_RECTS then
              && multiset(First(found + [r])) == multiset(First(found)) + multiset{r}
              && |First(found + [r])| == |First(found)| + 1
            else
              First(found + [r]) == First(found)
  {}

  /** They are sorted, and lie in disjoint places. */
  lemma {:induction false} SlotsAreInPlace(controls: seq<Control>, j: nat)
    requires j <= |controls|
    ensures Sorted(RectsFrom(controls, j)) && Disjoint(RectsFrom(controls, j), SizeFrom(controls, j))
    decreases |controls| - j
  {
    hide Insert, ControlSize, RectIndex, Sorted, Disjoint;
    if j < |controls| {
      SlotsAreInPlace(controls, j + 1);
      RectHasSize(controls[j]);
      var rects := RectsFrom(controls, j + 1);
      if RectIndex(controls[j]).Some? {
        var r := Rect(RectIndex(controls[j]).value, SizeFrom(controls, j + 1));
        InsertKeepsSorted(rects, r, r.offset);
        InsertKeepsDisjoint(rects, r, r.offset);
      }
      HigherBound(rects, SizeFrom(controls, j + 1), SizeFrom(controls, j));
    } else {
      NoSlots(SizeFrom(controls, j));
    }
  }

  lemma NoSlots(bound: nat)
    ensures Sorted([]) && Disjoint([], bound)
  {}

  lemma HigherBound(rects: seq<Rect>, low: nat, high: nat)
    ensures Disjoint(rects, low) && low <= high ==> Disjoint(rects, high)
  {}

  // ----- The GPU's list -----

  class Uniform {
    const kind: Type
    var shared: bool
    /** Where the value lies in the shared memory. */
    var value: Option<nat>
    var next: Uniform?
    /** The entry it was made of. */
    ghost const at: nat

    constructor (kind: Type, next: Uniform?, ghost at: nat)
      ensures this.kind == kind && this.next == next && this.at == at
      ensures !shared && value.None?
    {
      this.kind, this.next, this.at := kind, next, at;
      shared, value := false, None;
    }
  }

  ghost predicate Chain(head: Uniform?, nodes: seq<Uniform>)
    reads nodes
  {
    && head == (if nodes == [] then null else nodes[0])
    && (forall i, k | 0 <= i < |nodes| && k == i + 1 && k < |nodes| :: nodes[i].next == nodes[k])
    && (nodes != [] ==> nodes[|nodes| - 1].next == null)
  }

  ghost function Entries(nodes: seq<Uniform>): seq<nat> {
    seq(|nodes|, i requires 0 <= i < |nodes| => nodes[i].at)
  }

  /** The entries from j on that become uniforms, the last one first. */
  function Created(controls: seq<Control>, known: map<string, Type>, j: nat): seq<nat>
    requires j <= |controls|
    decreases |controls| - j
  {
    if j == |controls| then []
    else
      Created(controls, known, j + 1) + if TypeOf(controls[j], known) != Unknown then [j] else []
  }

  /** The list is what was loaded from these controls. */
  ghost predicate Loaded(nodes: seq<Uniform>, controls: seq<Control>, known: map<string, Type>) {
    && Entries(nodes) == Created(controls, known, 0)
    && forall i | 0 <= i < |nodes| :: nodes[i].at < |controls| && nodes[i].kind == TypeOf(controls[nodes[i].at], known)
  }

  /** The list holds what the first i entries make, the last one first. */
  ghost predicate Lists(nodes: seq<Uniform>, controls: seq<Control>, known: map<string, Type>, i: nat)
    requires i <= |controls|
  {
    && Entries(nodes) == CreatedBelow(controls, known, i)
    && (forall k | 0 <= k < |nodes| :: nodes[k].at < |controls| && nodes[k].kind == TypeOf(controls[nodes[k].at], known))
    && (forall k, l | 0 <= k < l < |nodes| :: nodes[k] != nodes[l])
  }

  /** Each entry that makes a uniform is put in front of the list. */
  method Load(controls: seq<Control>, known: map<string, Type>) returns (head: Uniform?, ghost nodes: seq<Uniform>)
    ensures Chain(head, nodes) && fresh(nodes)
    ensures Loaded(nodes, controls, known)
    ensures forall i, k | 0 <= i < k < |nodes| :: nodes[i] != nodes[k]
  {
    hide TypeOf, Lists, Chain, Loaded;
    head, nodes := null, [];
    EmptyList(controls, known);
    for i := 0 to |controls|
      invariant Chain(head, nodes) && fresh(nodes)
      invariant Lists(nodes, controls, known, i)
    {
      var kind := TypeOf(controls[i], known);
      if kind != Unknown {
        var uniform := new Uniform(kind, head, i);
        ListGrows(uniform, nodes, controls, known);
        ChainGrows(uniform, nodes);
        head, nodes := uniform, [uniform] + nodes;
      } else {
        ListStays(nodes, controls, known, i);
      }
    }
    AllListed(nodes, controls, known);
  }

  lemma EmptyList(controls: seq<Control>, known: map<string, Type>)
    ensures Chain(null, []) && Lists([], controls, known, 0)
  {}

  lemma ChainGrows(u: Uniform, nodes: seq<Uniform>)
    ensures Chain(u.next, nodes) ==> Chain(u, [u] + nodes)
  {}

  lemma ListGrows(u: Uniform, nodes: seq<Uniform>, controls: seq<Control>, known: map<string, Type>)
    requires u.at < |controls| && u.kind == TypeOf(controls[u.at], known) != Unknown && u !in nodes
    ensures Lists(nodes, controls, known, u.at) ==> Lists([u] + nodes, controls, known, u.at + 1)
  {
    hide TypeOf;
    assert Entries([u] + nodes) == [u.at] + Entries(nodes);
  }

  lemma ListStays(nodes: seq<Uniform>, controls: seq<Control>, known: map<string, Type>, i: nat)
    requires i < |controls| && TypeOf(controls[i], known) == Unknown
    ensures Lists(nodes, controls, known, i) ==> Lists(nodes, controls, known, i + 1)
  {
    hide TypeOf;
    assert CreatedBelow(controls, known, i + 1) == [] + CreatedBelow(controls, known, i);
  }

  lemma AllListed(nodes: seq<Uniform>, controls: seq<Control>, known: map<string, Type>)
    requires Lists(nodes, controls, known, |controls|)
    ensures Loaded(nodes, controls, known)
    ensures forall k, l | 0 <= k < l < |nodes| :: nodes[k] != nodes[l]
  {
    hide TypeOf;
    CreatedBothWays(controls, known, 0);
  }

  function CreatedBelow(controls: seq<Control>, known: map<string, Type>, i: nat): seq<nat>
    requires i <= |controls|
  {
    if i == 0 then []
    else (if TypeOf(controls[i - 1], known) != Unknown then [i - 1] else []) + CreatedBelow(controls, known, i - 1)
  }

  lemma {:induction false} CreatedBothWays(controls: seq<Control>, known: map<string, Type>, j: nat)
    requires j <= |controls|
    ensures CreatedBelow(controls, known, |controls|) == Created(controls, known, j) + CreatedBelow(controls, known, j)
    decreases |controls| - j
  {
    hide TypeOf;
    if j < |controls| {
      CreatedBothWays(controls, known, j + 1);
    }
  }

  /** The bytes of a list of uniforms. */
  ghost function Total(nodes: seq<Uniform>): nat {
    if nodes == [] then 0
    else
      var size := UniformSize(nodes[|nodes| - 1].kind);
      Total(nodes[..|nodes| - 1]) + if size.Some? then size.value else 0
  }

  lemma {:induction false} TotalOfMore(nodes: seq<Uniform>, m: nat)
    requires m <= |nodes|
    ensures Total(nodes[..m]) <= Total(nodes)
    ensures Total(nodes[..m]) == Total(nodes) ==> forall i | m <= i < |nodes| :: UniformSize(nodes[i].kind).None?
  {
    if m < |nodes| {
      var front := nodes[..|nodes| - 1];
      TotalOfMore(front, m);
      assert front[..m] == nodes[..m];
    } else {
      assert nodes[..m] == nodes;
    }
  }

  /** Attach the shared memory: every uniform that has a size gets a place behind those
      before it in the list.  `attached` tells whether the memory could be created. */
  method Share(head: Uniform?, ghost nodes: seq<Uniform>, attached: bool) returns (size: nat)
    requires Chain(head, nodes)
    requires forall i, k | 0 <= i < k < |nodes| :: nodes[i] != nodes[k]
    modifies nodes
    ensures size == Total(nodes)
    ensures attached ==> forall k | 0 <= k < |nodes| :: Placed(nodes, k, old(nodes[k].value), old(nodes[k].shared))
    ensures !attached ==> unchanged(nodes)
  {
    hide UniformSize, Total;
    size := SizeOf(head, nodes);
    TotalOfMore(nodes, 0);
    TotalOfNone();
    assert nodes[..0] == [];
    if !attached || size == 0 {
      return;
    }
    var offset := 0;
    var uniform := head;
    ghost var i := 0;
    while uniform != null && offset < size
      invariant 0 <= i <= |nodes| && uniform == (if i < |nodes| then nodes[i] else null)
      invariant offset == Total(nodes[..i]) && Chain(head, nodes)
      invariant forall k | 0 <= k < i :: Placed(nodes, k, old(nodes[k].value), old(nodes[k].shared))
      invariant forall k | i <= k < |nodes| ::
        nodes[k].value == old(nodes[k].value) && nodes[k].shared == old(nodes[k].shared)
      decreases |nodes| - i
    {
      var usize := UniformSize(uniform.kind);
      if usize.Some? {
        uniform.value := Some(offset);
        uniform.shared := true;
        offset := offset + usize.value;
      }
      OneMoreNode(nodes, i);
      i := i + 1;
      uniform := uniform.next;
    }
    TotalOfMore(nodes, i);
    assert nodes[..|nodes|] == nodes;
  }

  /** What sharing does to node k. */
  ghost predicate Placed(nodes: seq<Uniform>, k: nat, value: Option<nat>, shared: bool)
    requires k < |nodes|
    reads nodes
  {
    if UniformSize(nodes[k].kind).Some? then nodes[k].value == Some(Total(nodes[..k])) && nodes[k].shared
    else nodes[k].value == value && nodes[k].shared == shared
  }

  lemma TotalOfNone()
    ensures Total([]) == 0
  {}

  lemma OneMoreNode(nodes: seq<Uniform>, i: nat)
    requires i < |nodes|
    ensures var size := UniformSize(nodes[i].kind);
      Total(nodes[..i + 1]) == Total(nodes[..i]) + if size.Some? then size.value else 0
  {
    assert nodes[..i + 1][..i] == nodes[..i];
  }

  method SizeOf(head: Uniform?, ghost nodes: seq<Uniform>) returns (size: nat)
    requires Chain(head, nodes)
    ensures size == Total(nodes)
  {
    hide UniformSize;
    size := 0;
    var uniform := head;
    ghost var i := 0;
    while uniform != null
      invariant 0 <= i <= |nodes| && uniform == (if i < |nodes| then nodes[i] else null)
      invariant size == Total(nodes[..i])
      decreases |nodes| - i
    {
      var usize := UniformSize(uniform.kind);
      if usize.Some? {
        size := size + usize.value;
      }
      assert nodes[..i + 1][..i] == nodes[..i];
      i := i + 1;
      uniform := uniform.next;
    }
    assert nodes[..i] == nodes;
  }

  // ----- Agreement -----

  function SizeAs(controls: seq<Control>, known: map<string, Type>, j: nat): nat
    requires j < |controls|
  {
    var size := UniformSize(TypeOf(controls[j], known));
    if size.Some? then size.value else 0
  }

  /** The bytes that the GPU process gives to the entries from j on. */
  function SharedFrom(controls: seq<Control>, known: map<string, Type>, j: nat): nat
    requires j <= |controls|
    decreases |controls| - j
  {
    if j == |controls| then 0 else SharedFrom(controls, known, j + 1) + SizeAs(controls, known, j)
  }

  /** The uniforms before the one of entry a are those of the entries behind a. */
  lemma {:induction false} CreatedBefore(controls: seq<Control>, known: map<string, Type>, j: nat, m: nat)
    requires j <= |controls| && m < |Created(controls, known, j)|
    ensures var a := Created(controls, known, j)[m];
      j <= a < |controls| && Created(controls, known, j)[..m] == Created(controls, known, a + 1)
    decreases |controls| - j
  {
    hide TypeOf;
    if m < |Created(controls, known, j + 1)| {
      CreatedBefore(controls, known, j + 1, m);
    }
  }

  lemma {:induction false} TotalOfCreated(nodes: seq<Uniform>, controls: seq<Control>, known: map<string, Type>, j: nat)
    requires j <= |controls| && Entries(nodes) == Created(controls, known, j)
    requires forall i | 0 <= i < |nodes| :: nodes[i].at < |controls| && nodes[i].kind == TypeOf(controls[nodes[i].at], known)
    ensures Total(nodes) == SharedFrom(controls, known, j)
    decreases |controls| - j
  {
    hide TypeOf, UniformSize;
    if j < |controls| {
      NoSizeUnknown();
      if TypeOf(controls[j], known) != Unknown {
        var front := nodes[..|nodes| - 1];
        assert |Entries(nodes)| == |nodes| == |Created(controls, known, j + 1)| + 1;
        assert Entries(front) == Entries(nodes)[..|nodes| - 1] == Created(controls, known, j + 1);
        assert nodes[|nodes| - 1].at == Entries(nodes)[|nodes| - 1] == j;
        TotalOfCreated(front, controls, known, j + 1);
      } else {
        TotalOfCreated(nodes, controls, known, j + 1);
      }
    } else {
      assert |Entries(nodes)| == 0;
    }
  }

  lemma NoSizeUnknown()
    ensures UniformSize(Unknown) == None
  {}

  /** A uniform lies behind all entries that follow its own in the array. */
  lemma PlaceInSharedMemory(nodes: seq<Uniform>, controls: seq<Control>, known: map<string, Type>, m: nat)
    requires Loaded(nodes, controls, known) && m < |nodes|
    ensures Total(nodes[..m]) == SharedFrom(controls, known, nodes[m].at + 1)
  {
    hide TypeOf;
    assert |Entries(nodes)| == |nodes| && nodes[m].at == Entries(nodes)[m];
    CreatedBefore(controls, known, 0, m);
    assert Entries(nodes[..m]) == Entries(nodes)[..m];
    TotalOfCreated(nodes[..m], controls, known, nodes[m].at + 1);
  }

  /** Every entry from j on that has a size has a string for a name. */
  predicate AllNamed(controls: seq<Control>, known: map<string, Type>, j: nat) {
    forall k | j <= k < |controls| :: UniformSize(TypeOf(controls[k], known)).Some? ==> controls[k].name.Some?
  }

  lemma {:induction false} SizesAgreeFrom(controls: seq<Control>, known: map<string, Type>, j: nat)
    requires j <= |controls|
    ensures SizeFrom(controls, j) <= SharedFrom(controls, known, j)
    ensures SizeFrom(controls, j) == SharedFrom(controls, known, j) <==> AllNamed(controls, known, j)
    decreases |controls| - j
  {
    hide TypeOf, UniformSize, ControlSize;
    if j < |controls| {
      SizesAgree(controls[j], known);
      SizesAgreeFrom(controls, known, j + 1);
      assert AllNamed(controls, known, j) <==>
        AllNamed(controls, known, j + 1) && (UniformSize(TypeOf(controls[j], known)).Some? ==> controls[j].name.Some?);
    }
  }

  /** A slot comes from an entry, and lies behind the entries that follow it. */
  lemma {:induction false} SlotComesFrom(controls: seq<Control>, j: nat, r: Rect) returns (k: nat)
    requires j <= |controls| && r in RectsFrom(controls, j)
    ensures j <= k < |controls| && RectIndex(controls[k]) == Some(r.index) && r.offset == SizeFrom(controls, k + 1)
    decreases |controls| - j
  {
    hide RectIndex, Insert, SizeFrom;
    var rects := RectsFrom(controls, j + 1);
    if r in rects {
      k := SlotComesFrom(controls, j + 1, r);
    } else {
      k := j;
      var x := Rect(RectIndex(controls[j]).value, SizeFrom(controls, j + 1));
      InsertKeepsAll(rects, x);
      assert r in multiset(Insert(rects, x));
      assert r !in multiset(rects);
    }
  }

  lemma RectIsVec4(c: Control, known: map<string, Type>)
    requires RectIndex(c).Some?
    ensures TypeOf(c, known) == FVec4
  {
    hide Lookup, Scan;
  }

  lemma {:induction false} EntryIsCreated(controls: seq<Control>, known: map<string, Type>, j: nat, a: nat) returns (m: nat)
    requires j <= a < |controls| && TypeOf(controls[a], known) != Unknown
    ensures m < |Created(controls, known, j)| && Created(controls, known, j)[m] == a
    decreases |controls| - j
  {
    hide TypeOf;
    if j == a {
      m := |Created(controls, known, j + 1)|;
    } else {
      m := EntryIsCreated(controls, known, j + 1, a);
    }
  }

  /** The client finds each rectangle where the GPU process reads it, if and only if
      every sized entry behind it has a name. */
  lemma RectanglesAgree(nodes: seq<Uniform>, controls: seq<Control>, known: map<string, Type>, r: Rect) returns (m: nat)
    requires Loaded(nodes, controls, known) && r in RectsFrom(controls, 0)
    ensures m < |nodes| && nodes[m].kind == FVec4 && RectIndex(controls[nodes[m].at]) == Some(r.index)
    ensures r.offset == Total(nodes[..m]) <==> AllNamed(controls, known, nodes[m].at + 1)
  {
    hide SizeFrom, SharedFrom, TypeOf, RectIndex, Created, UniformSize, RectsFrom, Total;
    var k := SlotComesFrom(controls, 0, r);
    RectIsVec4(controls[k], known);
    m := EntryIsCreated(controls, known, 0, k);
    assert |Entries(nodes)| == |nodes| && nodes[m].at == Entries(nodes)[m];
    PlaceInSharedMemory(nodes, controls, known, m);
    SizesAgreeFrom(controls, known, k + 1);
  }

  /** Both ask for shared memory of the same size if and only if every sized entry has
      a name. */
  lemma TotalsAgree(nodes: seq<Uniform>, controls: seq<Control>, known: map<string, Type>)
    requires Loaded(nodes, controls, known)
    ensures SizeFrom(controls, 0) == Total(nodes) <==> AllNamed(controls, known, 0)
  {
    TotalOfCreated(nodes, controls, known, 0);
    SizesAgreeFrom(controls, known, 0);
  }
}
