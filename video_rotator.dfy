/** The Vimeo rotator: the items of an RSS feed become a list of videos, two
    player frames take turns being visible, the hidden one is preloaded with
    the next video, and a title box shows the current video's title. The
    feed download, the XML parser and the timers are not modelled: the parsed
    items arrive as a parameter and each firing of the interval is one call
    of `NextVideo`. */
module VideoRotator {
  import opened Wrappers
  import opened JsText
  import opened JsNumber
  import EditorialCommon

  /** The text that precedes a Vimeo id in a link. */
  const Marker: string := "vimeo.com/"

  /** The pattern `vimeo\.com\/(\d+)` can start matching at `i`: the marker
      sits there and a digit follows it. */
  predicate MatchAt(s: string, i: int) {
    OccursAt(s, Marker, i) && i + |Marker| < |s| && IsDigit(s[i + |Marker|])
  }

  /** The longest run of digits at the front of `s` (the greedy `\d+`). */
  function DigitRun(s: string): (r: string)
    ensures |r| <= |s| && r == s[..|r|]
    ensures AllDigits(r)
    ensures |r| < |s| ==> !IsDigit(s[|r|])
    ensures s != [] && IsDigit(s[0]) ==> r != []
  {
    if s != [] && IsDigit(s[0]) then [s[0]] + DigitRun(s[1..]) else []
  }

  /** The leftmost position at or after `i` where the pattern matches. */
  function FindMatch(s: string, i: nat): (r: Option<nat>)
    ensures r.Some? ==> i <= r.value && MatchAt(s, r.value)
    decreases |s| - i
  {
    if i + |Marker| >= |s| then None
    else if MatchAt(s, i) then Some(i)
    else FindMatch(s, i + 1)
  }

  /** The position found is the leftmost match, and none is found only when
      nothing matches from `i` on. */
  lemma {:induction false} FindMatchLeftmost(s: string, i: nat)
    ensures var r := FindMatch(s, i);
            && (r.Some? ==> forall j :: i <= j < r.value ==> !MatchAt(s, j))
            && (r.None? ==> forall j :: i <= j ==> !MatchAt(s, j))
    decreases |s| - i
  {
    if i + |Marker| < |s| && !MatchAt(s, i) {
      FindMatchLeftmost(s, i + 1);
    }
  }

  /** `extractVimeoId`: the digits of the leftmost match of
      `/vimeo\.com\/(\d+)/`, or `""` when there is none. */
  function ExtractVimeoId(link: string): (r: string)
    ensures AllDigits(r)
  {
    match FindMatch(link, 0)
    case None => ""
    case Some(k) => DigitRun(link[k + |Marker|..])
  }

  /** There is no id exactly when the pattern matches nowhere in the link. */
  lemma ExtractVimeoIdNone(link: string)
    ensures ExtractVimeoId(link) == "" <==> forall j :: !MatchAt(link, j)
  {
    var m := FindMatch(link, 0);
    FindMatchLeftmost(link, 0);
    if m.Some? {
      assert DigitRun(link[m.value + |Marker|..]) != [];
    }
  }

  /** When the pattern matches, the id is the whole digit run after the
      leftmost match (the position `FindMatch` returns; `FindMatchLeftmost`
      shows nothing matches before it). */
  lemma ExtractVimeoIdAt(link: string, k: nat)
    requires FindMatch(link, 0) == Some(k)
    ensures var id := ExtractVimeoId(link);
            var start := k + |Marker|;
            && id != ""
            && start + |id| <= |link| && link[start..start + |id|] == id
            && (start + |id| == |link| || !IsDigit(link[start + |id|]))
  {
    DigitRunAt(link, k + |Marker|);
  }

  /** The digit run that starts at `start` sits in `s` there, and what
      follows it is not a digit. */
  lemma DigitRunAt(s: string, start: nat)
    requires start <= |s|
    ensures var id := DigitRun(s[start..]);
            && start + |id| <= |s| && s[start..start + |id|] == id
            && (start + |id| == |s| || !IsDigit(s[start + |id|]))
  {
    var rest := s[start..];
    var id := DigitRun(rest);
    assert s[start..start + |id|] == rest[..|id|];
    if start + |id| < |s| {
      assert s[start + |id|] == rest[|id|];
    }
  }

  /** The id of a plain video page link `https://vimeo.com/<digits><rest>`
      is those digits. */
  lemma ExtractFromPageLink(digits: string, rest: string)
    requires digits != [] && AllDigits(digits)
    requires rest == [] || !IsDigit(rest[0])
    ensures ExtractVimeoId("https://" + Marker + digits + rest) == digits
  {
    var link := "https://" + Marker + digits + rest;
    SchemeHasNoMatch(link);
    assert link[8..8 + |Marker|] == Marker;
    assert link[8 + |Marker|] == digits[0];
    assert MatchAt(link, 8);
    assert FindMatch(link, 0) == Some(8) by {
      FindMatchSkips(link, 0, 8);
    }
    assert link[8 + |Marker|..] == digits + rest;
    DigitRunOf(digits, rest);
  }

  /** Nothing matches inside a leading `https://`. */
  lemma SchemeHasNoMatch(link: string)
    requires |link| >= 8 && link[..8] == "https://"
    ensures forall j :: 0 <= j < 8 ==> !MatchAt(link, j)
  {
    forall j | 0 <= j < 8 ensures !MatchAt(link, j) {
      assert link[j] == link[..8][j] != Marker[0];
      if j + |Marker| <= |link| {
        assert link[j..j + |Marker|][0] == link[j];
      }
    }
  }

  /** The search passes over positions without a match up to the first one. */
  lemma {:induction false} FindMatchSkips(s: string, i: nat, k: nat)
    requires i <= k && MatchAt(s, k)
    requires forall j :: i <= j < k ==> !MatchAt(s, j)
    ensures FindMatch(s, i) == Some(k)
    decreases k - i
  {
    if i < k {
      FindMatchSkips(s, i + 1, k);
    }
  }

  /** The digit run of a run of digits followed by a non-digit is that run. */
  lemma {:induction false} DigitRunOf(digits: string, rest: string)
    requires AllDigits(digits)
    requires rest == [] || !IsDigit(rest[0])
    ensures DigitRun(digits + rest) == digits
    decreases |digits|
  {
    if digits != [] {
      assert (digits + rest)[1..] == digits[1..] + rest;
      DigitRunOf(digits[1..], rest);
    } else {
      assert digits + rest == rest;
    }
  }

  /** One `<item>` of the feed: the text of its `<title>` and `<description>`
      elements, `None` when the element is absent. */
  datatype FeedItem = FeedItem(title: Option<string>, description: Option<string>)

  /** A video of the rotation: its title and its link. */
  datatype Video = Video(title: string, link: string)

  /** `?.textContent?.trim() || ""`. */
  function TextOf(o: Option<string>): (r: string)
    ensures o.None? ==> r == ""
    ensures o.Some? ==> r == Trim(o.value)
  {
    match o
    case None => ""
    case Some(t) => Trim(t)
  }

  /** The mapping of one item to a video. */
  function ToVideo(item: FeedItem): Video {
    Video(TextOf(item.title), TextOf(item.description))
  }

  /** A video is kept when its link mentions `vimeo.com`. */
  predicate IsVimeo(v: Video) {
    Contains(v.link, "vimeo.com")
  }

  /** `items.map(toVideo)`. */
  function Mapped(items: seq<FeedItem>): (vs: seq<Video>)
    ensures |vs| == |items|
    ensures forall i :: 0 <= i < |items| ==> vs[i] == ToVideo(items[i])
  {
    seq(|items|, i requires 0 <= i < |items| => ToVideo(items[i]))
  }

  /** `.filter(v => v.link.includes("vimeo.com"))`: the Vimeo videos, in
      their order. */
  function KeepVimeo(vs: seq<Video>): (r: seq<Video>)
    ensures |r| <= |vs|
    ensures forall v :: v in r <==> v in vs && IsVimeo(v)
  {
    if vs == [] then []
    else
      var init := vs[..|vs| - 1];
      var last := vs[|vs| - 1];
      assert vs == init + [last];
      KeepVimeo(init) + (if IsVimeo(last) then [last] else [])
  }

  /** The videos the feed's items yield. */
  function VimeoVideos(items: seq<FeedItem>): (r: seq<Video>)
    ensures |r| <= |items|
    ensures forall v :: v in r <==> v in Mapped(items) && IsVimeo(v)
  {
    KeepVimeo(Mapped(items))
  }

  /** The filter keeps videos in their feed order: it distributes over
      concatenation. */
  lemma {:induction false} KeepVimeoAppend(a: seq<Video>, b: seq<Video>)
    ensures KeepVimeo(a + b) == KeepVimeo(a) + KeepVimeo(b)
    decreases |b|
  {
    if b == [] {
      assert a + b == a;
    } else {
      var init := b[..|b| - 1];
      assert (a + b)[..|a + b| - 1] == a + init;
      KeepVimeoAppend(a, init);
    }
  }

  /** The address a frame is pointed at to play the video with id `id`. */
  function PlayerUrl(id: string): string {
    "https://player.vimeo.com/video/" + id + "?autoplay=1&muted=1&background=1&transparent=1"
  }

  /** `loadInto`: a frame whose link yields an id is pointed at the player for
      it; a link without an id leaves the frame's address as it was. */
  function LoadInto(src: string, link: string): string {
    var id := ExtractVimeoId(link);
    if id == "" then src else PlayerUrl(id)
  }

  /** A frame holds `v` as far as the address can tell: whenever `v`'s link
      has an id, the frame plays that id. */
  predicate Holds(src: string, v: Video) {
    ExtractVimeoId(v.link) != "" ==> src == PlayerUrl(ExtractVimeoId(v.link))
  }

  /** After loading a video into a frame, the frame holds it; a video whose
      link has no id leaves the frame as it was. */
  lemma LoadIntoHolds(src: string, v: Video)
    ensures Holds(LoadInto(src, v.link), v)
    ensures ExtractVimeoId(v.link) == "" ==> LoadInto(src, v.link) == src
  {
  }

  /** The rotator's refs: the videos, the current index, which frame is on
      show, the two frames' addresses and `active` classes, and the title. */
  class Rotator {
    var videos: seq<Video>
    var currentIndex: nat
    var showingA: bool
    var srcA: string
    var srcB: string
    var activeA: bool
    var activeB: bool
    var title: string

    /** The video at the current index, taken round the list. */
    function Current(): Video
      reads this`videos, this`currentIndex
      requires |videos| > 0
    {
      videos[currentIndex % |videos|]
    }

    /** The video after it. */
    function Next(): Video
      reads this`videos, this`currentIndex
      requires |videos| > 0
    {
      videos[(currentIndex + 1) % |videos|]
    }

    /** The frame on show. */
    function Shown(): string
      reads this`showingA, this`srcA, this`srcB
    {
      if showingA then srcA else srcB
    }

    /** The frame behind it. */
    function Hidden(): string
      reads this`showingA, this`srcA, this`srcB
    {
      if showingA then srcB else srcA
    }

    /** There are videos, exactly the frame that `showingA` names is active,
        it holds the current video, the hidden frame holds the next one and
        the title box shows the current video's title. */
    predicate Coherent()
      reads this
    {
      && |videos| > 0
      && activeA == showingA && activeB == !showingA
      && Holds(Shown(), Current())
      && Holds(Hidden(), Next())
      && title == Current().title
    }

    /** The component on mount: no videos yet, frame A marked as the one on
        show, neither frame loaded nor active. */
    constructor(startIndex: nat)
      ensures videos == [] && currentIndex == startIndex && showingA
      ensures srcA == "" && srcB == "" && !activeA && !activeB && title == ""
    {
      videos := [];
      currentIndex := startIndex;
      showingA := true;
      srcA := "";
      srcB := "";
      activeA := false;
      activeB := false;
      title := "";
    }

    /** `showInitial`: frame A gets the current video and is made active, the
        title box its title, and frame B the next video. */
    method ShowInitial()
      requires |videos| > 0
      modifies this`srcA, this`srcB, this`activeA, this`title
      ensures srcA == LoadInto(old(srcA), Current().link) && srcB == LoadInto(old(srcB), Next().link)
      ensures activeA && title == Current().title
    {
      var first := Current();
      var next := Next();
      var a := LoadInto(srcA, first.link);
      var b := LoadInto(srcB, next.link);
      srcA, activeA, title, srcB := a, true, first.title, b;
      assert first == Current() && next == Next();
    }

    /** The feed's items arrive: the Vimeo videos replace the list and, when
        there is at least one, the initial display is set up. Freshly
        mounted, the rotator is then coherent. */
    method Load(items: seq<FeedItem>)
      modifies this
      ensures videos == VimeoVideos(items)
      ensures currentIndex == old(currentIndex) && showingA == old(showingA) && activeB == old(activeB)
      ensures videos == [] ==> srcA == old(srcA) && srcB == old(srcB) && activeA == old(activeA) && title == old(title)
      ensures videos != [] ==> srcA == LoadInto(old(srcA), Current().link) && srcB == LoadInto(old(srcB), Next().link)
      ensures videos != [] ==> activeA && title == Current().title
      ensures videos != [] && old(showingA) && !old(activeB) ==> Coherent()
    {
      videos := VimeoVideos(items);
      if |videos| == 0 {
        return;
      }
      ShowInitial();
      LoadIntoHolds(old(srcA), Current());
      LoadIntoHolds(old(srcB), Next());
    }

    /** The first half of `nextVideo`: the index moves one place round the
        list and the title box takes the new current title (the fade-out and
        fade-in of the title are not modelled). */
    method Advance()
      requires |videos| > 0
      modifies this`currentIndex, this`title
      ensures currentIndex == (old(currentIndex) + 1) % |videos| && currentIndex < |videos|
      ensures Current() == old(Next()) && title == Current().title
    {
      var n := |videos|;
      var ci := (currentIndex + 1) % n;
      EditorialCommon.ModOf(ci, n, 0, ci);
      assert videos[ci] == Next();
      currentIndex, title := ci, videos[ci].title;
    }

    /** The second half of `nextVideo`: the hidden frame is made active and
        the frame that was on show is loaded with `next`. */
    method Swap(next: Video)
      modifies this`showingA, this`activeA, this`activeB, this`srcA, this`srcB
      ensures showingA == !old(showingA)
      ensures Shown() == old(Hidden()) && Hidden() == LoadInto(old(Shown()), next.link)
      ensures activeA == showingA && activeB == !showingA
    {
      if showingA {
        activeA, activeB, srcA, showingA := false, true, LoadInto(srcA, next.link), false;
      } else {
        activeA, activeB, srcB, showingA := true, false, LoadInto(srcB, next.link), true;
      }
    }

    /** `nextVideo`: the index moves one place round the list, the title box
        takes the new current title, the hidden frame is made active, and the
        frame that was on show is loaded with the video after the new current
        one. The rotator stays coherent. */
    method NextVideo()
      requires |videos| > 0
      modifies this
      ensures videos == old(videos)
      ensures currentIndex == (old(currentIndex) + 1) % |videos|
      ensures Current() == old(Next()) && title == Current().title
      ensures showingA == !old(showingA) && activeA == showingA && activeB == !showingA
      ensures Shown() == old(Hidden()) && Hidden() == LoadInto(old(Shown()), Next().link)
      ensures old(Coherent()) ==> Coherent()
    {
      Advance();
      var next := Next();
      Swap(next);
      LoadIntoHolds(old(Shown()), next);
    }
  }

  /** The current index after `k` firings of the interval, starting from `i`. */
  function IndexAfter(i: nat, k: nat, n: nat): nat
    requires n > 0
  {
    if k == 0 then i else (IndexAfter(i, k - 1, n) + 1) % n
  }

  /** `k` firings move the video on show `k` places round the list. */
  lemma {:induction false} IndexAfterAdvances(i: nat, k: nat, n: nat)
    requires n > 0
    ensures IndexAfter(i, k, n) % n == (i + k) % n
  {
    if k > 0 {
      IndexAfterAdvances(i, k - 1, n);
      var prev := IndexAfter(i, k - 1, n);
      EditorialCommon.ModSucc(prev, n);
      EditorialCommon.ModSucc(i + k - 1, n);
      EditorialCommon.DivMod(prev, n);
      EditorialCommon.ModOf((prev + 1) % n, n, 0, (prev + 1) % n);
    }
  }

  /** Every video comes on show within as many firings as there are videos. */
  lemma EveryVideoShown(i: nat, n: nat, j: nat)
    requires n > 0 && j < n
    ensures exists k: nat :: k < n && IndexAfter(i, k, n) % n == j
  {
    var c := i % n;
    var k := EditorialCommon.StepsTo(c, j, n);
    EditorialCommon.StepsToReach(c, j, n);
    IndexAfterAdvances(i, k, n);
    ModShift(i, k, n);
  }

  /** Only the remainder of `i` matters for the remainder of `i + k`. */
  lemma ModShift(i: nat, k: nat, n: nat)
    requires n > 0
    ensures (i + k) % n == (i % n + k) % n
  {
    var c := i % n;
    EditorialCommon.DivMod(i, n);
    EditorialCommon.DivMod(c + k, n);
    assert i + k == (i / n + (c + k) / n) * n + (c + k) % n by {
      assert (i / n + (c + k) / n) * n == (i / n) * n + ((c + k) / n) * n;
    }
    EditorialCommon.ModOf(i + k, n, i / n + (c + k) / n, (c + k) % n);
  }
}
