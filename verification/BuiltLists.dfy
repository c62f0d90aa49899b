/** The option lists that clean_options and add_option can build, and what becomes of them on the wire. */
module BuiltLists {
  import opened Bytes
  import opened Messages
  import opened OptionList
  import opened Encoding
  import opened Parsing
  import opened RoundTrip

  /** The two assertions that open add_option. */
  predicate Asserted(calls: seq<Call>) {
    Legal(calls) && forall k :: 0 <= k < |calls| && calls[k].Add? ==> |calls[k].value| <= OPTION_MAX_LENGTH
  }

  predicate Small(o: CoapOption) {
    o.number <= OPTION_MAX_NUMBER && |o.value| <= OPTION_MAX_LENGTH
  }

  lemma {:induction false} HistoryIsSmall(calls: seq<Call>)
    requires Asserted(calls) && !ParsedSinceClean(calls)
    ensures forall o :: o in History(Intended, calls) ==> Small(o)
  {
    if calls != [] && !calls[|calls| - 1].Clean? {
      HistoryIsSmall(calls[..|calls| - 1]);
    }
  }

  /** A list that no parse has filled is sorted, and every option in it is one that was added. */
  lemma BuiltIsSorted(calls: seq<Call>)
    requires Asserted(calls) && !ParsedSinceClean(calls)
    ensures Sorted(ListAfter(Intended, calls).options)
    ensures forall o :: o in ListAfter(Intended, calls).options ==> Small(o)
  {
    ListIsSortedHistory(Intended, calls);
    SortProperties(History(Intended, calls));
    HistoryIsSmall(calls);
    hide Sort, History, Sorted;
    if calls == [] {
      SortProperties([]);
      SortOfSorted([]);
    }
    forall o | o in ListAfter(Intended, calls).options
      ensures Small(o)
    {
      assert o in multiset(ListAfter(Intended, calls).options);
    }
  }

  /** A sorted list of small options has no negative delta and needs no two-byte extension. */
  lemma {:induction false} SortedListFits(options: seq<CoapOption>, p: u16)
    requires Sorted(options) && p <= OPTION_MAX_NUMBER
    requires forall o :: o in options ==> Small(o) && p <= o.number
    ensures OptionsFit(options, p)
  {
    if options != [] {
      assert Small(options[0]) && NumberFits(p, options[0].number);
      forall o | o in options[1..]
        ensures Small(o) && options[0].number <= o.number
      {
        var k :| 0 <= k < |options[1..]| && options[1..][k] == o;
        assert options[k + 1] == o;
      }
      SortedListFits(options[1..], options[0].number);
    }
  }

  /**
   Whatever calls of clean_options, add_option and find_options have built the list, in any order and
   after any earlier parse, a version 1 packet that holds it is read back as it was written.
   */
  lemma BuiltPacketsSurvive(calls: seq<Call>, m0: Message, m: Message)
    requires Asserted(calls) && !ParsedSinceClean(calls)
    requires m.WellFormed() && m.TokenLength() <= TOKEN_MAX_LENGTH && m.Version() == COAP_VERSION
    requires m.options == ListAfter(Intended, calls).options && m0.payload == []
    ensures Parse(Intended, m0, Encode(Intended, m)) == (Accepted, m.Visible())
  {
    hide Parse, Encode, Sorted, ListAfter;
    BuiltIsSorted(calls);
    SortedListFits(m.options, 0);
    RoundTripExact(m0, m);
  }

  /** What add_option takes: numbers up to 60 and values up to 256 bytes, so the request's options and more. */
  lemma AddLimits(number: u16, value: seq<byte>)
    ensures Asserted([Add(number, value)]) <==> number <= 60 && |value| <= 256
  {
    assert [Add(number, value)][0] == Add(number, value);
  }
}
