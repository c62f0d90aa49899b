/** The option list of a packet: sorting, lookup and the bitmap index (src/packet.cc:292-353, 492-507). */
module OptionList {
  import opened Bytes
  import opened Messages

  // ---------- the sorted list ----------

  predicate Sorted(options: seq<CoapOption>) {
    forall j, k :: 0 <= j < k < |options| ==> options[j].number <= options[k].number
  }

  /** The options with one number, in list order. */
  function Select(options: seq<CoapOption>, number: u16): seq<CoapOption> {
    if options == [] then []
    else Select(options[..|options| - 1], number)
         + if options[|options| - 1].number == number then [options[|options| - 1]] else []
  }

  /** One step of insertion sort: o goes behind every option whose number is not greater. */
  function Insert(options: seq<CoapOption>, o: CoapOption): (r: seq<CoapOption>)
    ensures |r| == |options| + 1
  {
    var last := |options| - 1;
    if options == [] || options[last].number <= o.number then options + [o]
    else Insert(options[..last], o) + [options[last]]
  }

  /** std::sort by number, as the insertion sort that does not reorder equal numbers. */
  function Sort(options: seq<CoapOption>): (r: seq<CoapOption>)
    ensures |r| == |options|
  {
    if options == [] then [] else Insert(Sort(options[..|options| - 1]), options[|options| - 1])
  }

  lemma SortedSnoc(options: seq<CoapOption>, o: CoapOption)
    ensures Sorted(options + [o]) <==>
            Sorted(options) && (options != [] ==> options[|options| - 1].number <= o.number)
  {
    var all := options + [o];
    assert forall k :: 0 <= k < |options| ==> all[k] == options[k];
    if Sorted(all) && options != [] {
      assert all[|options| - 1].number <= all[|options|].number;
    }
  }

  lemma {:induction false} InsertProperties(options: seq<CoapOption>, o: CoapOption)
    requires Sorted(options)
    ensures Sorted(Insert(options, o))
    ensures multiset(Insert(options, o)) == multiset(options) + multiset{o}
    ensures var r := Insert(options, o);
            r[|r| - 1] == if options == [] || options[|options| - 1].number <= o.number then o
                          else options[|options| - 1]
  {
    hide Sorted;
    if options == [] || options[|options| - 1].number <= o.number {
      SortedSnoc(options, o);
    } else {
      var front, x := options[..|options| - 1], options[|options| - 1];
      assert options == front + [x];
      SortedSnoc(front, x);
      InsertProperties(front, o);
      SortedSnoc(Insert(front, o), x);
    }
  }

  lemma SortSnoc(options: seq<CoapOption>, o: CoapOption)
    ensures Sort(options + [o]) == Insert(Sort(options), o)
  {
    assert (options + [o])[..|options|] == options;
  }

  lemma {:induction false} SortProperties(options: seq<CoapOption>)
    ensures Sorted(Sort(options))
    ensures multiset(Sort(options)) == multiset(options)
  {
    hide Insert;
    if options != [] {
      hide Sort, Sorted;
      var front, o := options[..|options| - 1], options[|options| - 1];
      assert options == front + [o];
      SortProperties(front);
      SortSnoc(front, o);
      InsertProperties(Sort(front), o);
    }
  }

  lemma SelectSnoc(options: seq<CoapOption>, o: CoapOption, number: u16)
    ensures Select(options + [o], number) == Select(options, number) + if o.number == number then [o] else []
  {
    assert (options + [o])[..|options|] == options;
  }

  lemma {:induction false} InsertStable(options: seq<CoapOption>, o: CoapOption, number: u16)
    requires Sorted(options)
    ensures Select(Insert(options, o), number) == Select(options + [o], number)
  {
    var last := |options| - 1;
    if options != [] && options[last].number > o.number {
      InsertStable(options[..last], o, number);
      SelectSnoc(Insert(options[..last], o), options[last], number);
      SelectSnoc(options, o, number);
      SelectSnoc(options[..last], o, number);
    }
  }

  /** Options with one number keep the order in which they were added (RFC 7252 section 5.4.5). */
  lemma {:induction false} SortStable(options: seq<CoapOption>, number: u16)
    ensures Select(Sort(options), number) == Select(options, number)
  {
    if options != [] {
      hide Select, Insert, Sort, Sorted;
      var front, o := options[..|options| - 1], options[|options| - 1];
      assert options == front + [o];
      SortStable(front, number);
      SortProperties(front);
      SortSnoc(front, o);
      InsertStable(Sort(front), o, number);
      SelectSnoc(Sort(front), o, number);
      SelectSnoc(front, o, number);
    }
  }

  lemma {:induction false} SortOfSorted(options: seq<CoapOption>)
    requires Sorted(options)
    ensures Sort(options) == options
  {
    if options != [] {
      SortOfSorted(options[..|options| - 1]);
      assert options == options[..|options| - 1] + [options[|options| - 1]];
    }
  }

  /** Sorting after every addition gives what one sort at the end gives. */
  lemma SortAfterEachAdd(options: seq<CoapOption>, o: CoapOption)
    ensures Sort(Sort(options) + [o]) == Sort(options + [o])
  {
    SortProperties(options);
    SortOfSorted(Sort(options));
    SortSnoc(Sort(options), o);
    SortSnoc(options, o);
  }

  /** std::sort itself promises less: a sorted permutation may swap two segments of one path. */
  lemma SortedPermutationMaySwap(a: CoapOption, c: CoapOption)
    requires a.number == c.number && a != c
    ensures Sorted([c, a]) && multiset([c, a]) == multiset([a, c]) && [c, a] != Sort([a, c])
  {
    hide Sort, Insert;
    var one, other := [a, c], [c, a];
    SortOfSorted(one);
    assert other[0] != one[0];
    assert one == [a] + [c] && other == [c] + [a];
  }

  // ---------- find_options ----------

  /** OutOfRange: the code reads an element before the first or after the last one. */
  datatype Lookup = Found(index: nat) | Missing | OutOfRange

  /** The binary search, from bounds min and max. */
  function Probe(options: seq<CoapOption>, number: u16, min: int, max: int): (r: Lookup)
    requires 0 <= min && max <= |options|
    ensures r.Found? ==> min <= r.index <= max && r.index < |options| && options[r.index].number == number
    decreases max + 1 - min
  {
    if min > max then Missing
    else
      var mid := (min + max) / 2;
      if mid == |options| then OutOfRange
      else if options[mid].number < number then Probe(options, number, mid + 1, max)
      else if options[mid].number > number then Probe(options, number, min, mid - 1)
      else Found(mid)
  }

  lemma ProbeTurn(options: seq<CoapOption>, number: u16, min: int, max: int)
    requires 0 <= min && max <= |options|
    ensures
      var mid := (min + max) / 2;
      Probe(options, number, min, max) ==
        if min > max then Missing
        else if mid == |options| then OutOfRange
        else if options[mid].number < number then Probe(options, number, mid + 1, max)
        else if options[mid].number > number then Probe(options, number, min, mid - 1)
        else Found(mid)
  {
  }

  /**
   find_options on a sorted list.  As written the search starts with max one too large, and the walk
   over the run of equal numbers stops only at an element with another number on either side.
   */
  function Find(b: Build, options: seq<CoapOption>, number: u16): (r: Lookup)
    ensures r.Found? ==> r.index < |options| && options[r.index].number == number
    ensures b.Intended? ==> !r.OutOfRange?
  {
    var r := Probe(options, number, 0, if b.AsWritten? then |options| else |options| - 1);
    if b.AsWritten? && r.Found? && (options[0].number == number || options[|options| - 1].number == number)
    then OutOfRange
    else if b.Intended? && r.OutOfRange? then Missing
    else r
  }

  predicate Occurs(options: seq<CoapOption>, number: u16) {
    exists k :: 0 <= k < |options| && options[k].number == number
  }

  predicate AllBelow(options: seq<CoapOption>, number: u16) {
    forall k :: 0 <= k < |options| ==> options[k].number < number
  }

  /** The invariant of the search: what is left of min is smaller, what is right of max is larger. */
  predicate Around(options: seq<CoapOption>, number: u16, min: int, max: int) {
    && (forall k :: 0 <= k < min && k < |options| ==> options[k].number < number)
    && (forall k :: 0 <= k < |options| && max < k ==> number < options[k].number)
  }

  lemma AroundStarts(options: seq<CoapOption>, number: u16, max: int)
    requires |options| - 1 <= max
    ensures Around(options, number, 0, max)
  {
  }

  lemma AroundBelow(options: seq<CoapOption>, number: u16, min: int, max: int)
    requires Around(options, number, min, max)
    ensures forall k :: 0 <= k < min && k < |options| ==> options[k].number < number
  {
  }

  lemma AroundNarrows(options: seq<CoapOption>, number: u16, min: int, max: int, mid: nat)
    requires Sorted(options) && Around(options, number, min, max) && mid < |options|
    ensures options[mid].number < number ==> Around(options, number, mid + 1, max)
    ensures options[mid].number > number ==> Around(options, number, min, mid - 1)
    ensures options[mid].number >= number ==> !AllBelow(options, number)
  {
  }

  lemma AroundEnds(options: seq<CoapOption>, number: u16, min: int, max: int)
    requires Around(options, number, min, max) && (min > max || min == |options|)
    ensures min > max ==> !Occurs(options, number)
    ensures min == |options| ==> AllBelow(options, number)
  {
  }

  lemma {:induction false} ProbeExact(options: seq<CoapOption>, number: u16, min: int, max: int)
    requires Sorted(options) && 0 <= min <= max + 1 && min <= |options| && max <= |options|
    requires Around(options, number, min, max)
    ensures Probe(options, number, min, max).Missing? ==> !Occurs(options, number)
    ensures Probe(options, number, min, max).OutOfRange? <==> max == |options| && AllBelow(options, number)
    decreases max + 1 - min
  {
    hide Occurs, Sorted, Around, AllBelow;
    var mid := (min + max) / 2;
    if min > max || min == |options| {
      AroundEnds(options, number, min, max);
    } else {
      AroundNarrows(options, number, min, max, mid);
      if options[mid].number < number {
        ProbeExact(options, number, mid + 1, max);
      } else if options[mid].number > number {
        ProbeExact(options, number, min, mid - 1);
      }
    }
  }

  /** With the bounds repaired, the binary search finds an option exactly when a scan would. */
  lemma FindRefinesScan(options: seq<CoapOption>, number: u16)
    requires Sorted(options)
    ensures Find(Intended, options, number).Found? <==> Occurs(options, number)
    ensures Find(Intended, options, number).Missing? <==> !Occurs(options, number)
  {
    ProbeExact(options, number, 0, |options| - 1);
  }

  lemma FindMissing(b: Build, options: seq<CoapOption>, number: u16)
    requires Sorted(options) && Find(b, options, number).Missing?
    ensures !Occurs(options, number)
  {
    var max := if b.AsWritten? then |options| else |options| - 1;
    AroundStarts(options, number, max);
    ProbeExact(options, number, 0, max);
  }

  /** What keeps the code as written inside the vector: a larger number, and a smaller one if it is found. */
  predicate Bracketed(options: seq<CoapOption>, number: u16) {
    options != [] && options[|options| - 1].number > number
    && (Occurs(options, number) ==> options[0].number < number)
  }

  lemma FindAsWrittenExact(options: seq<CoapOption>, number: u16)
    requires Sorted(options)
    ensures Find(AsWritten, options, number).OutOfRange? <==> !Bracketed(options, number)
    ensures Bracketed(options, number) ==>
              (Find(AsWritten, options, number).Found? <==> Occurs(options, number))
  {
    ProbeExact(options, number, 0, |options|);
    if Occurs(options, number) {
      var k :| 0 <= k < |options| && options[k].number == number;
      assert options[0].number <= number <= options[|options| - 1].number;
    }
  }

  /** In a list where exactly the indices from lo to hi carry the number, there are hi - lo of them. */
  lemma {:induction false} SelectRun(options: seq<CoapOption>, number: u16, lo: nat, hi: nat)
    requires lo <= hi <= |options|
    requires forall k :: 0 <= k < |options| ==> (options[k].number == number <==> lo <= k < hi)
    ensures |Select(options, number)| == hi - lo
  {
    if options != [] {
      var front := options[..|options| - 1];
      if hi == |options| && lo < hi {
        SelectRun(front, number, lo, hi - 1);
      } else if hi == |options| {
        SelectRun(front, number, lo - 1, hi - 1);
      } else {
        SelectRun(front, number, lo, hi);
      }
    }
  }

  // ---------- the bitmap ----------

  /** Bit k of a word. */
  predicate Bit(word: nat, k: nat) {
    if k == 0 then word % 2 == 1 else Bit(word / 2, k - 1)
  }

  /** word | (1 << k). */
  function SetBit(word: nat, k: nat): nat {
    if k == 0 then (if word % 2 == 1 then word else word + 1)
    else word % 2 + 2 * SetBit(word / 2, k - 1)
  }

  lemma SetBitTurn(word: nat, k: nat)
    ensures SetBit(word, 0) == if word % 2 == 1 then word else word + 1
    ensures k > 0 ==> SetBit(word, k) == word % 2 + 2 * SetBit(word / 2, k - 1)
  {
  }

  lemma BitTurn(word: nat, k: nat)
    ensures Bit(word, 0) <==> word % 2 == 1
    ensures k > 0 ==> (Bit(word, k) <==> Bit(word / 2, k - 1))
  {
  }

  lemma HalfAndRest(bit: nat, rest: nat)
    requires bit < 2
    ensures (bit + 2 * rest) % 2 == bit && (bit + 2 * rest) / 2 == rest
  {
  }

  lemma {:induction false} SetBitExact(word: nat, k: nat, j: nat)
    ensures Bit(SetBit(word, k), j) <==> j == k || Bit(word, j)
  {
    hide Bit, SetBit;
    SetBitTurn(word, k);
    BitTurn(word, j);
    BitTurn(SetBit(word, k), j);
    if k > 0 {
      HalfAndRest(word % 2, SetBit(word / 2, k - 1));
      if j > 0 {
        SetBitExact(word / 2, k - 1, j - 1);
      }
    } else {
      HalfAndRest(1, word / 2);
    }
  }

  function Pow2(k: nat): nat {
    if k == 0 then 1 else 2 * Pow2(k - 1)
  }

  lemma Doubled(word: nat, half: nat)
    requires word < 2 * half
    ensures word / 2 < half && (word % 2 == 0 ==> word + 1 < 2 * half)
  {
  }

  lemma {:induction false} SetBitBound(word: nat, k: nat, width: nat)
    requires k < width && word < Pow2(width)
    ensures SetBit(word, k) < Pow2(width)
  {
    var half := Pow2(width - 1);
    assert Pow2(width) == 2 * half;
    hide SetBit, Pow2;
    SetBitTurn(word, k);
    Doubled(word, half);
    if k > 0 {
      SetBitBound(word / 2, k - 1, width - 1);
    }
  }

  /** The two words of _option_bitmap. */
  datatype Bitmap = Bitmap(low: nat, high: nat) {
    predicate Has(number: nat) {
      if number > 31 then Bit(high, number - 32) else Bit(low, number)
    }

    function With(number: nat): Bitmap {
      if number > 31 then this.(high := SetBit(high, number - 32)) else this.(low := SetBit(low, number))
    }
  }

  const EMPTY_BITMAP: Bitmap := Bitmap(0, 0)

  lemma {:induction false} ZeroHasNoBit(k: nat)
    ensures !Bit(0, k)
  {
    if k > 0 {
      ZeroHasNoBit(k - 1);
    }
  }

  lemma WithExact(m: Bitmap, number: nat, j: nat)
    requires j < 64 && number < 64
    ensures m.With(number).Has(j) <==> j == number || m.Has(j)
  {
    if number > 31 && j > 31 {
      SetBitExact(m.high, number - 32, j - 32);
    } else if number <= 31 && j <= 31 {
      SetBitExact(m.low, number, j);
    }
  }

  /** A number below 32 goes to the first word and one below 64 to the second; both stay 32-bit words. */
  lemma WithFits(m: Bitmap, number: nat)
    requires number < 64 && m.low < 0x1_0000_0000 && m.high < 0x1_0000_0000
    ensures
      var r := m.With(number);
      && r.low < 0x1_0000_0000 && r.high < 0x1_0000_0000
      && (if number < 32 then r.high == m.high && Bit(r.low, number) else r.low == m.low && Bit(r.high, number - 32))
  {
    PowersOfTwo();
    if number < 32 {
      SetBitBound(m.low, number, 32);
      SetBitExact(m.low, number, number);
    } else {
      SetBitBound(m.high, number - 32, 32);
      SetBitExact(m.high, number - 32, number - 32);
    }
    hide Bit, SetBit, Pow2;
  }

  lemma PowersOfTwo()
    ensures Pow2(32) == 0x1_0000_0000
  {
    assert Pow2(8) == 256;
    PowerSum(8, 8);
    PowerSum(16, 16);
    hide Pow2;
  }

  lemma {:induction false} PowerSum(j: nat, k: nat)
    ensures Pow2(j + k) == Pow2(j) * Pow2(k)
  {
    if j > 0 {
      PowerSum(j - 1, k);
      assert Pow2(j + k) == 2 * Pow2(j - 1 + k) && Pow2(j) == 2 * Pow2(j - 1);
      hide Pow2;
      assert 2 * Pow2(j - 1) * Pow2(k) == 2 * (Pow2(j - 1) * Pow2(k));
    }
  }

  // ---------- every history of a list ----------

  /** The calls that change the option list; parse_options fills it without touching the bitmap bits. */
  datatype Call = Clean | Add(number: u16, value: seq<byte>) | FindCall | ParseCall(parsed: seq<CoapOption>)

  datatype Index = Index(options: seq<CoapOption>, bitmap: Bitmap)

  function Apply(b: Build, x: Index, c: Call): Index {
    match c
    case Clean => Index([], EMPTY_BITMAP)
    case Add(number, value) =>
      Index(Sort(x.options + [CoapOption(number, b.Blank() + value)]), x.bitmap.With(number))
    case FindCall => x.(options := Sort(x.options))
    case ParseCall(parsed) => Index(parsed, EMPTY_BITMAP)
  }

  function ListAfter(b: Build, calls: seq<Call>): Index {
    if calls == [] then Index([], EMPTY_BITMAP)
    else Apply(b, ListAfter(b, calls[..|calls| - 1]), calls[|calls| - 1])
  }

  /** What was added since the last clean or parse, in order, behind what that parse left. */
  function History(b: Build, calls: seq<Call>): seq<CoapOption> {
    if calls == [] then []
    else
      var before := History(b, calls[..|calls| - 1]);
      match calls[|calls| - 1]
      case Clean => []
      case Add(number, value) => before + [CoapOption(number, b.Blank() + value)]
      case FindCall => before
      case ParseCall(parsed) => parsed
  }

  /** add_option asserts number <= OPTION_MAX_NUMBER. */
  predicate Legal(calls: seq<Call>) {
    forall k :: 0 <= k < |calls| && calls[k].Add? ==> calls[k].number <= OPTION_MAX_NUMBER
  }

  /**
   After any calls in any order the list sorts to the sorted history, and it is that sorted history
   unless the last call that touched it was a parse: so it is a permutation of what was added, and
   equal numbers are in the order of addition.
   */
  lemma {:induction false} ListIsSortedHistory(b: Build, calls: seq<Call>)
    ensures Sort(ListAfter(b, calls).options) == Sort(History(b, calls))
    ensures calls != [] && !calls[|calls| - 1].ParseCall? ==> ListAfter(b, calls).options == Sort(History(b, calls))
    ensures multiset(ListAfter(b, calls).options) == multiset(History(b, calls))
    ensures forall n: u16 :: Select(ListAfter(b, calls).options, n) == Select(History(b, calls), n)
  {
    if calls != [] {
      var before := calls[..|calls| - 1];
      ListIsSortedHistory(b, before);
      var x, h := ListAfter(b, before), History(b, before);
      match calls[|calls| - 1] {
        case Add(number, value) =>
          var o := CoapOption(number, b.Blank() + value);
          SortAfterEachAdd(x.options, o);
          SortAfterEachAdd(h, o);
          SortProperties(h + [o]);
          SortOfSorted(Sort(h + [o]));
          forall n: u16 ensures Select(Sort(h + [o]), n) == Select(h + [o], n) {
            SortStable(h + [o], n);
          }
        case FindCall =>
          SortProperties(h);
          SortOfSorted(Sort(h));
          forall n: u16 ensures Select(Sort(h), n) == Select(h, n) {
            SortStable(h, n);
          }
        case _ =>
      }
    }
  }

  lemma {:induction false} OccursByCount(options: seq<CoapOption>, n: u16)
    ensures Occurs(options, n) <==> Select(options, n) != []
  {
    if options != [] {
      var front, last := options[..|options| - 1], options[|options| - 1];
      OccursByCount(front, n);
      if Occurs(options, n) && last.number != n {
        var k :| 0 <= k < |options| && options[k].number == n;
        assert front[k].number == n;
      }
      if Occurs(front, n) {
        var k :| 0 <= k < |front| && front[k].number == n;
        assert options[k].number == n;
      }
      if last.number == n {
        assert options[|options| - 1].number == n;
      }
    }
  }

  /** The calls since the list was last emptied or parsed: was it emptied by a parse? */
  predicate ParsedSinceClean(calls: seq<Call>) {
    calls != [] &&
    (calls[|calls| - 1].ParseCall? ||
     (!calls[|calls| - 1].Clean? && ParsedSinceClean(calls[..|calls| - 1])))
  }

  lemma RunOccurs(b: Build, calls: seq<Call>, n: u16)
    ensures Occurs(ListAfter(b, calls).options, n) <==> Select(History(b, calls), n) != []
  {
    hide ListAfter, History, Occurs, Select;
    ListIsSortedHistory(b, calls);
    OccursByCount(ListAfter(b, calls).options, n);
  }

  /**
   A set bit always means that the option is in the list; the converse holds as long as the list has
   been filled by add_option alone.
   */
  lemma {:induction false} BitmapAgrees(b: Build, calls: seq<Call>, n: u16)
    requires Legal(calls) && n < 64
    ensures ListAfter(b, calls).bitmap.Has(n) ==> Occurs(ListAfter(b, calls).options, n)
    ensures !ParsedSinceClean(calls) && Occurs(ListAfter(b, calls).options, n) ==> ListAfter(b, calls).bitmap.Has(n)
  {
    hide Occurs, Select, Sort, Bit, SetBit;
    RunOccurs(b, calls, n);
    EmptySelect(n);
    if calls != [] {
      var before := calls[..|calls| - 1];
      BitmapAgrees(b, before, n);
      RunOccurs(b, before, n);
      match calls[|calls| - 1] {
        case Add(number, value) =>
          WithExact(ListAfter(b, before).bitmap, number, n);
          SelectSnoc(History(b, before), CoapOption(number, b.Blank() + value), n);
        case _ =>
      }
    }
  }

  /** n was given to add_option since the list was last emptied or parsed. */
  predicate AddedSince(calls: seq<Call>, n: u16) {
    calls != [] &&
    match calls[|calls| - 1]
    case Clean => false
    case Add(number, _) => number == n || AddedSince(calls[..|calls| - 1], n)
    case FindCall => AddedSince(calls[..|calls| - 1], n)
    case ParseCall(_) => false
  }

  /** What a bit means after any calls in any order. */
  lemma {:induction false} BitmapExact(b: Build, calls: seq<Call>, n: u16)
    requires Legal(calls) && n < 64
    ensures ListAfter(b, calls).bitmap.Has(n) <==> AddedSince(calls, n)
  {
    hide Sort, Bit, SetBit;
    EmptySelect(n);
    if calls != [] {
      var before := calls[..|calls| - 1];
      BitmapExact(b, before, n);
      match calls[|calls| - 1] {
        case Add(number, _) => WithExact(ListAfter(b, before).bitmap, number, n);
        case _ =>
      }
    }
  }

  lemma EmptySelect(n: u16)
    requires n < 64
    ensures Select([], n) == [] && !EMPTY_BITMAP.Has(n)
  {
    ZeroHasNoBit(n);
    ZeroHasNoBit(n % 32);
  }
}
