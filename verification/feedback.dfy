/** The visitor feedback section of the dashboard: accepting a submission,
    the minimum-rating filter, the four sort orders and the colour band of
    each feedback card.

    The CSV file behind the store is modelled as the sequence of entries it
    holds; a missing or empty file is the empty sequence. A timestamp is the
    submission time in whole seconds. */
module Feedback {
  import opened Seqs

  /** One row of the feedback file: `nama`, `pesan`, `rating`, `timestamp`. */
  datatype Entry = Entry(name: string, message: string, rating: int, timestamp: int)

  /** What the form reports back after "Submit Feedback". */
  datatype Status = Saved | MissingFields

  /** The store after a submission, and what the form reported. */
  datatype Submission = Submission(store: seq<Entry>, status: Status)

  /** `if feedback and nama`: a submission is saved exactly when both the
      name and the message are non-empty strings. A saved entry lands after
      every existing one, which stay as they were; a refused submission
      leaves the store untouched. */
  function Submit(store: seq<Entry>, name: string, message: string, rating: int, now: int): (r: Submission)
    ensures r.status == Saved <==> name != [] && message != []
    ensures r.status == MissingFields ==> r.store == store
    ensures r.status == Saved ==>
      && |r.store| == |store| + 1
      && r.store[..|store|] == store
      && r.store[|store|] == Entry(name, message, rating, now)
  {
    if |message| > 0 && |name| > 0 then
      Submission(store + [Entry(name, message, rating, now)], Saved)
    else
      Submission(store, MissingFields)
  }

  /** Submitting `{name: "A", message: "hi", rating: 5}` to an empty store
      yields a store holding exactly that entry. */
  lemma SubmitToEmptyStore(now: int)
    ensures Submit([], "A", "hi", 5, now) == Submission([Entry("A", "hi", 5, now)], Saved)
  {
  }

  /** `feedback_df[feedback_df['rating'] >= min_rating]`: keeps exactly the
      entries rated at least `minRating`, each as often as it occurs. */
  function FilterByRating(entries: seq<Entry>, minRating: int): (r: seq<Entry>)
    ensures forall e :: multiset(r)[e] == if e.rating >= minRating then multiset(entries)[e] else 0
    ensures forall e :: e in r <==> e in entries && e.rating >= minRating
    ensures (forall i :: 0 <= i < |entries| ==> entries[i].rating >= minRating) ==> r == entries
  {
    FilterCounts(entries, (e: Entry) => e.rating >= minRating);
    Filter(entries, (e: Entry) => e.rating >= minRating)
  }

  /** The four choices of the "Urutkan berdasarkan" select box. */
  datatype SortOption =
    | Newest         // "Terbaru": timestamp, descending
    | Oldest         // "Terlama": timestamp, ascending
    | HighestRating  // "Rating Tertinggi": rating, descending
    | LowestRating   // "Rating Terendah": rating, ascending
  {
    /** The column sorted on. */
    function Key(e: Entry): int {
      if this == Newest || this == Oldest then e.timestamp else e.rating
    }

    /** True for `ascending=False`. */
    predicate Descending() {
      this == Newest || this == HighestRating
    }

    /** `a` may be listed before `b` under this option. */
    predicate InOrder(a: Entry, b: Entry) {
      if Descending() then Key(a) >= Key(b) else Key(a) <= Key(b)
    }
  }

  /** Every earlier entry may precede every later one. */
  ghost predicate SortedBy(s: seq<Entry>, opt: SortOption) {
    forall i, j :: 0 <= i < j < |s| ==> opt.InOrder(s[i], s[j])
  }

  /** When `x` does not go before the head of an ordered sequence, that head
      may precede everything the rest becomes once `x` is inserted. */
  lemma HeadPrecedes(x: Entry, s: seq<Entry>, rest: seq<Entry>, opt: SortOption)
    requires |s| > 0 && SortedBy(s, opt) && !opt.InOrder(x, s[0])
    requires multiset(rest) == multiset(s[1..]) + multiset{x}
    ensures forall k :: 0 <= k < |rest| ==> opt.InOrder(s[0], rest[k])
  {
    forall k | 0 <= k < |rest|
      ensures opt.InOrder(s[0], rest[k])
    {
      assert rest[k] in multiset(rest);
      if rest[k] != x {
        assert rest[k] in s[1..];
        var j :| 0 <= j < |s[1..]| && s[1..][j] == rest[k];
        assert s[j + 1] == rest[k];
      }
    }
  }

  /** Places `x` into an already ordered sequence. */
  function Insert(x: Entry, s: seq<Entry>, opt: SortOption): (r: seq<Entry>)
    requires SortedBy(s, opt)
    ensures multiset(r) == multiset(s) + multiset{x}
    ensures SortedBy(r, opt)
  {
    if |s| == 0 then [x]
    else if opt.InOrder(x, s[0]) then
      [x] + s
    else
      var rest := Insert(x, s[1..], opt);
      assert s == [s[0]] + s[1..];
      HeadPrecedes(x, s, rest, opt);
      [s[0]] + rest
  }

  /** `sort_values(by=..., ascending=...)`: a reordering of the entries in
      which the chosen column runs in the chosen direction. */
  function SortEntries(s: seq<Entry>, opt: SortOption): (r: seq<Entry>)
    ensures multiset(r) == multiset(s)
    ensures SortedBy(r, opt)
  {
    if |s| == 0 then []
    else
      assert s == [s[0]] + s[1..];
      Insert(s[0], SortEntries(s[1..], opt), opt)
  }

  /** The card list: the entries rated at least `minRating`, in the chosen
      order, each exactly as often as it is stored. */
  function FeedbackView(store: seq<Entry>, minRating: int, opt: SortOption): (r: seq<Entry>)
    ensures forall e :: multiset(r)[e] == if e.rating >= minRating then multiset(store)[e] else 0
    ensures SortedBy(r, opt)
  {
    SortEntries(FilterByRating(store, minRating), opt)
  }

  /** The three colour schemes of a feedback card. */
  datatype Band = Green | Orange | Red {

    /** Position on the Red < Orange < Green scale. */
    function Rank(): nat {
      match this
      case Red => 0
      case Orange => 1
      case Green => 2
    }

    /** `card_color`, the left border. */
    function CardColour(): string {
      match this
      case Green => "#4CAF50"
      case Orange => "#FF9800"
      case Red => "#F44336"
    }

    /** `bg_color`, the card background. */
    function Background(): string {
      match this
      case Green => "#e8f5e9"
      case Orange => "#fff3e0"
      case Red => "#ffebee"
    }

    /** `text_bg`, the background behind the message. */
    function TextBackground(): string {
      match this
      case Green => "#c8e6c9"
      case Orange => "#ffe0b2"
      case Red => "#ffcdd2"
    }
  }

  /** The colour band of a card: Green from rating 4 up, Orange for exactly
      3, Red for 2 and below. */
  function BandOf(rating: int): (b: Band)
    ensures b == Green <==> rating >= 4
    ensures b == Orange <==> rating == 3
    ensures b == Red <==> rating <= 2
  {
    if rating >= 4 then Green
    else if rating >= 3 then Orange
    else Red
  }

  /** The three colours of a card, read off its rating: the green scheme
      from rating 4 up, the orange one for exactly 3, the red one below. */
  lemma CardColours(rating: int)
    ensures rating >= 4 ==>
      BandOf(rating).CardColour() == "#4CAF50" && BandOf(rating).Background() == "#e8f5e9" &&
      BandOf(rating).TextBackground() == "#c8e6c9"
    ensures rating == 3 ==>
      BandOf(rating).CardColour() == "#FF9800" && BandOf(rating).Background() == "#fff3e0" &&
      BandOf(rating).TextBackground() == "#ffe0b2"
    ensures rating <= 2 ==>
      BandOf(rating).CardColour() == "#F44336" && BandOf(rating).Background() == "#ffebee" &&
      BandOf(rating).TextBackground() == "#ffcdd2"
  {
  }

  /** The column and direction each select-box choice sorts by. */
  lemma SortColumns(e: Entry)
    ensures Newest.Key(e) == e.timestamp && Newest.Descending()
    ensures Oldest.Key(e) == e.timestamp && !Oldest.Descending()
    ensures HighestRating.Key(e) == e.rating && HighestRating.Descending()
    ensures LowestRating.Key(e) == e.rating && !LowestRating.Descending()
  {
  }

  /** A better rating never gets a worse colour. */
  lemma BandMonotone(r1: int, r2: int)
    requires r1 <= r2
    ensures BandOf(r1).Rank() <= BandOf(r2).Rank()
  {
  }
}
