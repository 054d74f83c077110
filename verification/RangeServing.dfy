/** Byte ranges of a file kept in chunks: reading which one is asked for, and writing out
    exactly that as an HTTP answer. */
module RangeServing {
  import opened Wrappers
  import opened Text
  import opened Seqs

  type Byte = x: int | 0 <= x < 256

  const U64 := 0x1_0000_0000_0000_0000

  // ----- reading the Range header

  /** Characters Rust's `trim` removes: Unicode's White_Space. */
  predicate IsSpace(c: char) {
    var n := c as int;
    9 <= n <= 13 || n == 0x20 || n == 0x85 || n == 0xA0 || n == 0x1680 || 0x2000 <= n <= 0x200A
    || n == 0x2028 || n == 0x2029 || n == 0x202F || n == 0x205F || n == 0x3000
  }

  function TrimStart(s: string): string {
    if s != "" && IsSpace(s[0]) then TrimStart(s[1..]) else s
  }

  function TrimEnd(s: string): string {
    if s != "" && IsSpace(s[|s| - 1]) then TrimEnd(s[..|s| - 1]) else s
  }

  function Trim(s: string): string { TrimEnd(TrimStart(s)) }

  /** Where `c` first is in `s`, or the end of it. */
  function Find(s: string, c: char): (i: nat)
    ensures i <= |s| && (forall k | 0 <= k < i :: s[k] != c) && (i < |s| ==> s[i] == c)
  {
    if s == "" || s[0] == c then 0 else 1 + Find(s[1..], c)
  }

  /** Rust's `u64::from_str`: digits, after at most one `+`, within 64 bits. */
  function ParseU64(s: string): Option<nat> {
    var digits := if s != "" && s[0] == '+' then s[1..] else s;
    if digits != "" && IsDigits(digits) && NumberOf(digits) < U64 then Some(NumberOf(digits)) else None
  }

  function Min(a: nat, b: nat): nat { if a <= b then a else b }

  /** `u64::saturating_add(1)`. */
  function NextOrMax(n: nat): nat { if n + 1 < U64 then n + 1 else U64 - 1 }

  function ParseRange(header: string, size: nat): (r: Option<(nat, nat)>)
    requires size < U64
    ensures r.Some? ==> r.value.0 < r.value.1 <= size
  {
    if "bytes=" <= header then
      var list := header[6..];
      ParseItem(Trim(list[..Find(list, ',')]), size)
    else None
  }

  function ParseItem(item: string, size: nat): (r: Option<(nat, nat)>)
    requires size < U64
    ensures r.Some? ==> r.value.0 < r.value.1 <= size
  {
    var dash := Find(item, '-');
    if dash == |item| then None else ParseEnds(Trim(item[..dash]), Trim(item[dash + 1..]), size)
  }

  function ParseEnds(first: string, last: string, size: nat): (r: Option<(nat, nat)>)
    requires size < U64
    ensures r.Some? ==> r.value.0 < r.value.1 <= size
  {
    var named :=
      if first == "" then
        match ParseU64(last)
        case None => None
        case Some(n) => Some((if n <= size then size - n else 0, size))
      else
        match ParseU64(first)
        case None => None
        case Some(from) =>
          if last == "" then Some((from, size))
          else
            match ParseU64(last)
            case None => None
            case Some(to) => Some((from, Min(NextOrMax(to), size)));
    if named.Some? && named.value.0 < named.value.1 && named.value.0 < size then named else None
  }

  /** A range as section 14.1.2 of RFC 9110 writes it, by its digits: an
      int-range, with or without a last position, or a suffix-range. */
  datatype RangeSpec = FirstLast(first: string, last: string) | From(first: string) | Suffix(length: string)
  {
    predicate Valid() {
      match this
      case FirstLast(f, l) => f != "" && l != "" && IsDigits(f) && IsDigits(l)
      case From(f) => f != "" && IsDigits(f)
      case Suffix(n) => n != "" && IsDigits(n)
    }

    function Text(): string {
      match this
      case FirstLast(f, l) => f + "-" + l
      case From(f) => f + "-"
      case Suffix(n) => "-" + n
    }

    /** The bytes it names of a file of `size`, half-open; none when the range
        is backwards, empty, or begins past the end. */
    function Named(size: nat): Option<(nat, nat)>
      requires Valid()
    {
      match this
      case FirstLast(f, l) =>
        if NumberOf(f) <= NumberOf(l) && NumberOf(f) < size
        then Some((NumberOf(f), Min(NumberOf(l) + 1, size))) else None
      case From(f) => if NumberOf(f) < size then Some((NumberOf(f), size)) else None
      case Suffix(n) =>
        if NumberOf(n) > 0 && size > 0
        then Some((if NumberOf(n) <= size then size - NumberOf(n) else 0, size)) else None
    }

    /** Every position fits in 64 bits. */
    predicate Fits()
      requires Valid()
    {
      match this
      case FirstLast(f, l) => NumberOf(f) < U64 && NumberOf(l) < U64
      case From(f) => NumberOf(f) < U64
      case Suffix(n) => NumberOf(n) < U64
    }
  }

  predicate IsBlank(s: string) { forall i | 0 <= i < |s| :: s[i] == ' ' || s[i] == '\t' }

  lemma {:induction false} TrimBlank(before: string, s: string, after: string)
    requires IsBlank(before) && IsBlank(after)
    requires s != "" && !IsSpace(s[0]) && !IsSpace(s[|s| - 1])
    ensures Trim(before + s + after) == s
    decreases |before| + |after|
  {
    if before != "" {
      assert (before + s + after)[1..] == before[1..] + s + after;
      assert IsSpace((before + s + after)[0]);
      TrimBlank(before[1..], s, after);
    } else {
      assert before + s + after == s + after;
      assert TrimStart(s + after) == s + after;
      TrimEndBlank(s, after);
    }
  }

  lemma {:induction false} TrimEndBlank(s: string, after: string)
    requires IsBlank(after) && s != "" && !IsSpace(s[|s| - 1])
    ensures TrimEnd(s + after) == s
    decreases |after|
  {
    if after != "" {
      assert (s + after)[..|s + after| - 1] == s + after[..|after| - 1];
      assert (s + after)[|s + after| - 1] == after[|after| - 1];
      TrimEndBlank(s, after[..|after| - 1]);
    } else {
      assert s + after == s;
    }
  }

  lemma FindIn(a: string, c: char, b: string)
    requires forall k | 0 <= k < |a| :: a[k] != c
    requires b == "" || b[0] == c
    ensures Find(a + b, c) == |a|
  {
    var whole := a + b;
    assert forall k | 0 <= k < |a| :: whole[k] == a[k];
    assert b != "" ==> whole[|a|] == c;
  }

  lemma DigitsTrim(s: string)
    requires IsDigits(s)
    ensures Trim(s) == s
  {
    if s != "" { TrimBlank("", s, ""); assert "" + s + "" == s; }
  }

  lemma DigitsParse(s: string)
    requires s != "" && IsDigits(s)
    ensures ParseU64(s) == if NumberOf(s) < U64 then Some(NumberOf(s)) else None
  {
    assert s[0] != '+';
  }

  lemma SplitSpec(f: string, l: string)
    requires IsDigits(f) && IsDigits(l)
    ensures Find(f + "-" + l, '-') == |f|
    ensures (f + "-" + l)[..|f|] == f && (f + "-" + l)[|f| + 1..] == l
  {
    FindIn(f, '-', "-" + l);
    assert f + "-" + l == f + ("-" + l);
  }

  /** The header's first item is found, wherever blanks and further items are. */
  lemma FirstItem(before: string, item: string, after: string, more: string)
    requires IsBlank(before) && IsBlank(after) && (more == "" || more[0] == ',')
    requires item != "" && !IsSpace(item[0]) && !IsSpace(item[|item| - 1]) && ',' !in item
    ensures var list := before + item + after + more; Trim(list[..Find(list, ',')]) == item
  {
    var head := before + item + after;
    assert forall k | 0 <= k < |head| :: head[k] in before || head[k] in item || head[k] in after;
    FindIn(head, ',', more);
    assert (head + more)[..|head|] == head;
    TrimBlank(before, item, after);
  }

  lemma ItemIsNamed(f: string, l: string, spec: RangeSpec, size: nat)
    requires spec.Valid() && size < U64
    requires spec == if f == "" then Suffix(l) else if l == "" then From(f) else FirstLast(f, l)
    ensures spec.Text() == f + "-" + l
    ensures ParseItem(f + "-" + l, size) == if spec.Fits() then spec.Named(size) else None
  {
    SplitSpec(f, l);
    DigitsTrim(f);
    DigitsTrim(l);
    EndsAreNamed(f, l, spec, size);
  }

  lemma EndsAreNamed(f: string, l: string, spec: RangeSpec, size: nat)
    requires spec.Valid() && size < U64
    requires spec == if f == "" then Suffix(l) else if l == "" then From(f) else FirstLast(f, l)
    ensures ParseEnds(f, l, size) == if spec.Fits() then spec.Named(size) else None
  {
    if f != "" { DigitsParse(f); }
    if l != "" { DigitsParse(l); }
  }

  /** For every range RFC 9110 has a form for, first in a list whose unit is written
      `bytes`, the program serves the range it names -- exactly when each position fits
      in 64 bits. */
  lemma RangeIsTheOneNamed(spec: RangeSpec, before: string, after: string, more: string, size: nat)
    requires spec.Valid() && size < U64
    requires IsBlank(before) && IsBlank(after) && (more == "" || more[0] == ',')
    ensures var served := ParseRange("bytes=" + (before + spec.Text() + after + more), size);
            && served == (if spec.Fits() then spec.Named(size) else None)
            && (served == spec.Named(size) <==> spec.Fits() || spec.Named(size) == None)
  {
    var f := match spec case FirstLast(f, _) => f case From(f) => f case Suffix(_) => "";
    var l := match spec case FirstLast(_, l) => l case From(_) => "" case Suffix(n) => n;
    var item := f + "-" + l;
    ItemIsNamed(f, l, spec, size);
    ItemShape(f, l);
    FirstItem(before, item, after, more);
    var list := before + item + after + more;
    assert ("bytes=" + list)[..6] == "bytes=" && ("bytes=" + list)[6..] == list;
  }

  lemma ItemShape(f: string, l: string)
    requires IsDigits(f) && IsDigits(l)
    ensures var item := f + "-" + l; item != "" && !IsSpace(item[0]) && !IsSpace(item[|item| - 1]) && ',' !in item
  {}

  /** Where the program and the RFC part. A last position past 64 bits refuses a
      range the RFC satisfies. */
  lemma HugeLastPositionIsRefused(first: string, last: string, size: nat)
    requires first != "" && last != "" && IsDigits(first) && IsDigits(last)
    requires NumberOf(first) < size < U64 <= NumberOf(last)
    ensures var spec := FirstLast(first, last);
            spec.Valid() && spec.Named(size) == Some((NumberOf(first), size))
            && ParseRange("bytes=" + ("" + spec.Text() + "" + ""), size) == None
  {
    hide ParseRange;
    RangeIsTheOneNamed(FirstLast(first, last), "", "", "", size);
  }

  /** A position without its sign. */
  function Unsigned(s: string): string { if s != "" && s[0] == '+' then s[1..] else s }

  /** No position, or one, signed or not. */
  predicate IsPosition(s: string) { s == "" || (Unsigned(s) != "" && IsDigits(Unsigned(s))) }

  /** The range an item comes to, blanks round its positions and signs before them
      dropped. */
  function Loosely(item: string): (r: Option<RangeSpec>)
    ensures r.Some? ==> r.value.Valid()
  {
    var dash := Find(item, '-');
    if dash == |item| then None
    else
      var f, l := Trim(item[..dash]), Trim(item[dash + 1..]);
      if !IsPosition(f) || !IsPosition(l) || (f == "" && l == "") then None
      else if f == "" then Some(Suffix(Unsigned(l)))
      else if l == "" then Some(From(Unsigned(f)))
      else Some(FirstLast(Unsigned(f), Unsigned(l)))
  }

  /** Of all headers, exactly these are served, and so: the unit written `bytes` and in no
      other case, the first item -- an empty one too, which the RFC lets a list begin
      with -- a range but for blanks and signs, its positions within 64 bits. */
  lemma ServedExactly(header: string, size: nat)
    requires size < U64
    ensures ParseRange(header, size) ==
      if !("bytes=" <= header) then None
      else
        match Loosely(Trim(header[6..][..Find(header[6..], ',')]))
        case None => None
        case Some(spec) => if spec.Fits() then spec.Named(size) else None
  {
    if "bytes=" <= header {
      var item := Trim(header[6..][..Find(header[6..], ',')]);
      var dash := Find(item, '-');
      if dash < |item| {
        LooseEnds(Trim(item[..dash]), Trim(item[dash + 1..]), size);
      }
    }
  }

  lemma LooseEnds(f: string, l: string, size: nat)
    requires size < U64
    ensures ParseEnds(f, l, size) ==
      if !IsPosition(f) || !IsPosition(l) || (f == "" && l == "") then None
      else
        var spec := if f == "" then Suffix(Unsigned(l)) else if l == "" then From(Unsigned(f))
                    else FirstLast(Unsigned(f), Unsigned(l));
        if spec.Fits() then spec.Named(size) else None
  {
    hide IsDigits, NumberOf;
  }

  /** And a signed first position, for which the RFC has no form, is taken. */
  lemma SignedFirstPositionIsTaken(size: nat)
    requires 5 < size < U64
    ensures ParseRange("bytes=+5-", size) == Some((5, size))
    ensures forall spec: RangeSpec :: spec.Valid() ==> spec.Text() != "+5-"
  {
    var item := "+5-";
    FirstItem("", item, "", "");
    assert "" + item + "" + "" == item;
    assert "bytes=+5-"[..6] == "bytes=" && "bytes=+5-"[6..] == item;
    SignedItem(size);
    forall s: RangeSpec | s.Valid() ensures s.Text()[0] != '+' {
      match s
      case FirstLast(f, l) => assert s.Text()[0] == f[0];
      case From(f) => assert s.Text()[0] == f[0];
      case Suffix(n) => assert s.Text()[0] == '-';
    }
  }

  lemma SignedItem(size: nat)
    requires 5 < size < U64
    ensures ParseItem("+5-", size) == Some((5, size))
  {
    FindIn("+5", '-', "-");
    assert "+5" + "-" == "+5-" && "+5-"[..2] == "+5" && "+5-"[3..] == "";
    TrimBlank("", "+5", "");
    assert "" + "+5" + "" == "+5";
    SignedNumber();
  }

  lemma SignedNumber()
    ensures ParseU64("+5") == Some(5)
  {
    assert "+5"[1..] == "5" && "5"[..0] == "";
    assert NumberOf("5") == 5;
  }

  // ----- where each chunk starts

  function File(chunks: seq<seq<Byte>>): (file: seq<Byte>)
  {
    if chunks == [] then [] else File(chunks[..|chunks| - 1]) + chunks[|chunks| - 1]
  }

  /** The running sums of the chunks' lengths, from nought to the whole. */
  ghost predicate Starts(chunks: seq<seq<Byte>>, starts: seq<nat>) {
    |starts| == |chunks| + 1 && forall i | 0 <= i <= |chunks| :: starts[i] == |File(chunks[..i])|
  }

  method ServeStarts(ghost chunks: seq<seq<Byte>>, sizes: seq<nat>) returns (starts: seq<nat>)
    requires |sizes| == |chunks| && forall i | 0 <= i < |sizes| :: sizes[i] == |chunks[i]|
    ensures Starts(chunks, starts)
  {
    starts := [];
    var at := 0;
    for i := 0 to |sizes|
      invariant |starts| == i && at == |File(chunks[..i])|
      invariant forall k | 0 <= k < i :: starts[k] == |File(chunks[..k])|
    {
      starts := starts + [at];
      at := at + sizes[i];
      assert chunks[..i + 1][..i] == chunks[..i];
    }
    starts := starts + [at];
  }

  lemma {:induction false} FileSlices(chunks: seq<seq<Byte>>, i: nat)
    requires i < |chunks|
    ensures |File(chunks[..i])| + |chunks[i]| == |File(chunks[..i + 1])| <= |File(chunks)|
    ensures File(chunks)[|File(chunks[..i])|..|File(chunks[..i + 1])|] == chunks[i]
    decreases |chunks|
  {
    assert chunks[..i + 1][..i] == chunks[..i];
    if i == |chunks| - 1 {
      assert chunks[..i + 1] == chunks;
    } else {
      var front := chunks[..|chunks| - 1];
      FileSlices(front, i);
      assert front[..i] == chunks[..i] && front[..i + 1] == chunks[..i + 1];
    }
  }

  // ----- answering

  /** What happens at one chunk: it is read and written; or the folder has been
      locked; or the store cannot read it; or the player hangs up after taking
      some of what is written. */
  datatype Turn = Sent | Locked | Unreadable | HungUp(taken: nat)

  /** `binary_search` over the starts, as its documentation leaves it: any index
      holding `start`, or else where it would go -- then the chunk before. */
  method FirstChunk(starts: seq<nat>, n: nat, start: nat) returns (index: nat)
    requires n < |starts|
    requires forall i, j | 0 <= i <= j < |starts| :: starts[i] <= starts[j]
    ensures n > 0 && starts[0] <= start ==> index < n && starts[index] <= start
    ensures n > 0 && starts[0] <= start && start !in starts[..n] ==> index + 1 == n || starts[index + 1] > start
  {
    if i :| 0 <= i < n && starts[i] == start {
      index := i;
    } else {
      var after := 0;
      while after < n && starts[after] < start
        invariant after <= n && forall k | 0 <= k < after :: starts[k] < start
      {
        after := after + 1;
      }
      index := if after == 0 then 0 else after - 1;
    }
  }

  /** What has been written when the chunks before offset `at` are done: the part
      of `start..end` that lies before it. */
  ghost predicate Written(file: seq<Byte>, start: nat, end: nat, at: nat, out: seq<Byte>)
    requires start <= end <= |file|
  {
    out == file[start..if at < start then start else Min(at, end)]
  }

  /** The loop that writes a range: whatever index the search picks, what goes
      out is a prefix of the slice, and all of it if nothing stops it. */
  method WriteRange(chunks: seq<seq<Byte>>, starts: seq<nat>, start: nat, end: nat, turns: nat -> Turn)
    returns (out: seq<Byte>)
    requires Starts(chunks, starts) && start < end <= |File(chunks)|
    ensures out <= File(chunks)[start..end]
    ensures (forall i :: turns(i) == Sent) ==> out == File(chunks)[start..end]
  {
    var n := |chunks|;
    ghost var file := File(chunks);
    StartsAscend(chunks, starts);
    var index := FirstChunk(starts, n, start);
    out := [];
    assert Written(file, start, end, starts[index], out);
    assert |starts| == n + 1;
    hide Written, File, Starts;
    while index < n && starts[index] < end
      invariant index <= n && Written(file, start, end, starts[index], out)
    {
      var bytes := chunks[index];
      var from := if starts[index] < start then start - starts[index] else 0;
      var to := Min(end - starts[index], |bytes|);
      var part := bytes[Min(from, to)..to];
      NextPart(chunks, starts, index, start, end, out);
      match turns(index) {
        case Locked => return;
        case Unreadable => return;
        case HungUp(k) =>
          out := out + part[..Min(k, |part|)];
          return;
        case Sent =>
      }
      out := out + part;
      index := index + 1;
    }
    AllWritten(file, start, end, starts[index], out);
  }

  /** Writing one chunk's part carries the slice on to the next chunk's start. */
  lemma NextPart(chunks: seq<seq<Byte>>, starts: seq<nat>, index: nat, start: nat, end: nat, out: seq<Byte>)
    requires Starts(chunks, starts) && start < end <= |File(chunks)|
    requires index < |chunks| && starts[index] < end
    requires Written(File(chunks), start, end, starts[index], out)
    ensures var bytes, at := chunks[index], starts[index];
            var from, to := if at < start then start - at else 0, Min(end - at, |bytes|);
            && Written(File(chunks), start, end, starts[index + 1], out + bytes[Min(from, to)..to])
            && out + bytes[Min(from, to)..to] <= File(chunks)[start..end]
  {
    var file, bytes, at := File(chunks), chunks[index], starts[index];
    FileSlices(chunks, index);
    var to := Min(end - at, |bytes|);
    var lo := Min(if at < start then start - at else 0, to);
    SliceOfSlice(file, at, at + |bytes|, lo, to);
    var was := if at < start then start else at;
    var next := if at + |bytes| < start then start else Min(at + |bytes|, end);
    assert bytes[lo..to] == file[was..next];
    JoinSlices(file, start, was, next);
    JoinSlices(file, start, next, end);
  }

  lemma AllWritten(file: seq<Byte>, start: nat, end: nat, at: nat, out: seq<Byte>)
    requires start <= end <= at && end <= |file| && Written(file, start, end, at, out)
    ensures out == file[start..end]
  {}

  lemma StartsAscend(chunks: seq<seq<Byte>>, starts: seq<nat>)
    requires Starts(chunks, starts)
    ensures forall i, j | 0 <= i <= j < |starts| :: starts[i] <= starts[j]
    ensures starts[0] == 0 && starts[|chunks|] == |File(chunks)|
  {
    forall i | 0 <= i < |chunks| ensures starts[i] <= starts[i + 1] { FileSlices(chunks, i); }
    Ascend(starts);
    assert chunks[..|chunks|] == chunks && chunks[..0] == [];
  }

  lemma {:induction false} Ascend(s: seq<nat>)
    requires forall i | 0 <= i < |s| - 1 :: s[i] <= s[i + 1]
    ensures forall i, j | 0 <= i <= j < |s| :: s[i] <= s[j]
  {
    if |s| > 1 {
      Ascend(s[..|s| - 1]);
      forall i, j | 0 <= i <= j < |s| ensures s[i] <= s[j] {
        if i < j == |s| - 1 {
          assert s[..|s| - 1][i] <= s[..|s| - 1][j - 1];
        } else if j < |s| - 1 {
          assert s[..|s| - 1][i] <= s[..|s| - 1][j];
        }
      }
    }
  }

  /** One answer: its status, the length its head promises, and its body. */
  method Answer(verb: string, known: bool, range: Option<string>, chunks: seq<seq<Byte>>, starts: seq<nat>,
                turns: nat -> Turn)
    returns (status: nat, length: nat, body: seq<Byte>)
    requires Starts(chunks, starts) && |File(chunks)| < U64
    ensures status in {200, 206, 404, 416}
    ensures status == 404 <==> !known || verb !in {"GET", "HEAD"}
    ensures status in {404, 416} ==> length == 0 && body == []
    ensures verb == "HEAD" ==> body == []
    ensures status == 200 ==> range == None && length == |File(chunks)| && body <= File(chunks)
    ensures status == 206 ==>
              && range.Some? && ParseRange(range.value, |File(chunks)|).Some?
              && var (start, end) := ParseRange(range.value, |File(chunks)|).value;
                 length == end - start && body <= File(chunks)[start..end]
    ensures status == 416 ==> range.Some? && ParseRange(range.value, |File(chunks)|) == None
    ensures verb == "GET" && (forall i :: turns(i) == Sent) ==> |body| == length
  {
    if !known || verb !in {"GET", "HEAD"} {
      return 404, 0, [];
    }
    StartsAscend(chunks, starts);
    var size := starts[|starts| - 1];
    var start, end, partial := 0, size, false;
    if range.Some? {
      match ParseRange(range.value, size) {
        case None => return 416, 0, [];
        case Some(r) => start, end, partial := r.0, r.1, true;
      }
    }
    status, length, body := if partial then 206 else 200, end - start, [];
    if verb == "HEAD" || start >= end {
      return;
    }
    body := WriteRange(chunks, starts, start, end, turns);
    assert File(chunks)[0..size] == File(chunks);
  }
}
