/** Blog handlers (blogController.ts over the BlogPost schema): the slug derived from a
    title, the filtered and paginated listing, the publish rules of create and update, the
    author gate, and the view counter of a read by slug.  `now` stands for `new Date()`. */
module Blog {
  import opened Common

  /** The messages these handlers answer with. */
  const ImageRequired := "Featured image is required"
  const PostNotFound := "Post not found"
  const TitleExists := "Post with this title already exists"
  const MissingFields := "Title, content, excerpt, and category are required"
  const NotYourPost := "You can only update your own posts"

  datatype PostStatus = Draft | Published

  datatype BlogPost = BlogPost(
    title: string,
    content: string,
    excerpt: string,
    featuredImage: string,
    category: string,
    slug: string,
    author: Id,
    status: PostStatus,
    publishedAt: Option<int>,
    views: int)

  datatype PostInput = PostInput(
    title: Option<string>,
    content: Option<string>,
    excerpt: Option<string>,
    category: Option<string>,
    status: Option<string>)

  function StatusName(s: PostStatus): string {
    match s
    case Draft => "draft"
    case Published => "published"
  }

  /** The schema enumeration of statuses. */
  function ParseStatus(s: string): (r: Option<PostStatus>)
    ensures r.Some? <==> s == "draft" || s == "published"
    ensures r.Some? ==> StatusName(r.value) == s
  {
    if s == "draft" then Some(Draft) else if s == "published" then Some(Published) else None
  }

  // ---------------------------------------------------------------------------
  // The slug: title.toLowerCase().replace(/[^a-z0-9]+/g, '-').replace(/(^-|-$)/g, '')

  /** The class `[a-z0-9]`. */
  predicate Alnum(c: char) {
    'a' <= c <= 'z' || '0' <= c <= '9'
  }

  predicate SlugChar(c: char) {
    Alnum(c) || c == '-'
  }

  /** Only `[a-z0-9-]`, and no two dashes in a row. */
  ghost predicate Dashed(s: string) {
    && (forall k :: 0 <= k < |s| ==> SlugChar(s[k]))
    && (forall k :: 0 <= k < |s| - 1 ==> !(s[k] == '-' && s[k + 1] == '-'))
  }

  /** What a slug looks like: dashed, and no dash at either end. */
  ghost predicate IsSlug(s: string) {
    Dashed(s) && (s == [] || (s[0] != '-' && s[|s| - 1] != '-'))
  }

  /** The letters and digits of `s`, in order. */
  function Alnums(s: string): (r: string)
    ensures |r| <= |s|
  {
    if s == [] then [] else (if Alnum(s[0]) then [s[0]] else []) + Alnums(s[1..])
  }

  lemma AlnumsCons(c: char, s: string)
    ensures Alnums([c] + s) == (if Alnum(c) then [c] else []) + Alnums(s)
  {
    assert ([c] + s)[1..] == s;
  }

  function LowerChar(c: char): char {
    if 'A' <= c <= 'Z' then (c as int + 32) as char else c
  }

  /** `toLowerCase` on the ASCII capitals; every other character is kept. */
  function Lower(s: string): (r: string)
    ensures |r| == |s|
    ensures forall k :: 0 <= k < |s| ==> r[k] == LowerChar(s[k])
  {
    seq(|s|, k requires 0 <= k < |s| => LowerChar(s[k]))
  }

  /** Drops the characters of a run outside `[a-z0-9]`. */
  function SkipRun(s: string): (r: string)
    ensures |r| <= |s| && r == s[|s| - |r|..]
    ensures r == [] || Alnum(r[0])
    ensures Alnums(r) == Alnums(s)
  {
    if s != [] && !Alnum(s[0]) then SkipRun(s[1..]) else s
  }

  /** `replace(/[^a-z0-9]+/g, '-')`: every maximal run of other characters becomes one dash. */
  function Collapse(s: string): (r: string)
    ensures Dashed(r)
    ensures r == [] <==> s == []
    ensures s != [] && Alnum(s[0]) ==> r[0] == s[0]
    ensures s != [] && !Alnum(s[0]) ==> r[0] == '-'
    ensures Alnums(r) == Alnums(s)
    decreases |s|
  {
    if s == [] then []
    else if Alnum(s[0]) then
      var rest := Collapse(s[1..]);
      AlnumsCons(s[0], rest);
      [s[0]] + rest
    else
      var rest := Collapse(SkipRun(s[1..]));
      AlnumsCons('-', rest);
      ['-'] + rest
  }

  /** `replace(/(^-|-$)/g, '')`: one dash at the start and one at the end are removed. */
  function TrimDashes(s: string): (r: string)
    ensures |r| <= |s|
    ensures IsSlug(s) ==> r == s
  {
    var a := if s != [] && s[0] == '-' then s[1..] else s;
    if a != [] && a[|a| - 1] == '-' then a[..|a| - 1] else a
  }

  /** Every infix of a dashed string is dashed. */
  lemma DashedInfix(s: string, i: int, j: int)
    requires Dashed(s) && 0 <= i <= j <= |s|
    ensures Dashed(s[i..j])
  {
    var t := s[i..j];
    forall k | 0 <= k < |t| ensures SlugChar(t[k]) {
      assert t[k] == s[i + k];
    }
    forall k | 0 <= k < |t| - 1 ensures !(t[k] == '-' && t[k + 1] == '-') {
      assert t[k] == s[i + k] && t[k + 1] == s[i + k + 1];
    }
  }

  /** Where the end dashes of a dashed string are: `TrimDashes(s)` is the infix `s[i..j]`. */
  function TrimBounds(s: string): (b: (int, int))
    ensures 0 <= b.0 <= b.1 <= |s| && TrimDashes(s) == s[b.0..b.1]
  {
    var i := if s != [] && s[0] == '-' then 1 else 0;
    var a := s[i..];
    (i, if a != [] && a[|a| - 1] == '-' then |s| - 1 else |s|)
  }

  /** On a dashed string, trimming the end dashes leaves a slug with the same letters and digits. */
  lemma TrimDashesOfDashed(s: string)
    requires Dashed(s)
    ensures IsSlug(TrimDashes(s))
    ensures Alnums(TrimDashes(s)) == Alnums(s)
  {
    TrimDashesIsSlug(s);
    TrimDashesKeepsAlnums(s);
  }

  lemma TrimDashesIsSlug(s: string)
    requires Dashed(s)
    ensures IsSlug(TrimDashes(s))
  {
    var (i, j) := TrimBounds(s);
    var t := s[i..j];
    DashedInfix(s, i, j);
    if t != [] {
      assert t[0] == s[i] && t[|t| - 1] == s[j - 1];
      if i == 1 { assert !(s[0] == '-' && s[1] == '-'); }
      if j == |s| - 1 { assert !(s[j] == '-' && s[j - 1] == '-'); }
    }
  }

  /** Only dashes are removed, so the letters and digits are those of the input. */
  lemma TrimDashesKeepsAlnums(s: string)
    ensures Alnums(TrimDashes(s)) == Alnums(s)
  {
    var a := if s != [] && s[0] == '-' then s[1..] else s;
    if s != [] && s[0] == '-' {
      AlnumsCons('-', a);
      assert s == ['-'] + a;
    }
    if a != [] && a[|a| - 1] == '-' {
      var t := a[..|a| - 1];
      assert a == t + ['-'];
      AlnumsAppendDash(t);
    }
  }

  lemma {:induction false} AlnumsAppendDash(s: string)
    ensures Alnums(s + ['-']) == Alnums(s)
  {
    if s != [] {
      assert (s + ['-'])[1..] == s[1..] + ['-'];
      AlnumsAppendDash(s[1..]);
    }
  }

  /** The slug of a title. */
  function Slug(title: string): (r: string)
    ensures IsSlug(r)
    ensures Alnums(r) == Alnums(Lower(title))
  {
    var collapsed := Collapse(Lower(title));
    TrimDashesOfDashed(collapsed);
    TrimDashes(collapsed)
  }

  // ---------------------------------------------------------------------------
  // The same two replaces described by words: a slug is the maximal runs of letters and
  // digits of the lower-cased title, joined by single dashes.

  /** A run of letters and digits. */
  ghost predicate IsWord(w: string) {
    w != [] && forall k :: 0 <= k < |w| ==> Alnum(w[k])
  }

  /** The maximal runs of `[a-z0-9]` in `s`, in order: a letter or digit starts a new word
      unless the next character is one too, in which case it joins the word that follows. */
  function Words(s: string): (ws: seq<string>)
    ensures forall i :: 0 <= i < |ws| ==> IsWord(ws[i])
    ensures s != [] && Alnum(s[0]) ==> ws != []
  {
    if s == [] then []
    else
      var ws := Words(s[1..]);
      if !Alnum(s[0]) then ws
      else if |s| > 1 && Alnum(s[1]) then
        ExtendWord(s[0], ws)
      else
        PrependWord([s[0]], ws);
        [[s[0]]] + ws
  }

  /** The first word of `ws` with `c` in front of it. */
  function ExtendWord(c: char, ws: seq<string>): (r: seq<string>)
    requires Alnum(c) && ws != []
    requires forall i :: 0 <= i < |ws| ==> IsWord(ws[i])
    ensures |r| == |ws| && r[0] == [c] + ws[0] && r[1..] == ws[1..]
    ensures forall i :: 0 <= i < |r| ==> IsWord(r[i])
  {
    var r := [[c] + ws[0]] + ws[1..];
    forall i | 0 <= i < |r|
      ensures IsWord(r[i])
    {
      if i == 0 {
        assert IsWord(ws[0]);
        assert r[0][0] == c;
        assert forall k :: 0 < k < |r[0]| ==> r[0][k] == ws[0][k - 1];
      } else {
        assert r[i] == ws[i];
      }
    }
    r
  }

  lemma PrependWord(w: string, ws: seq<string>)
    requires IsWord(w)
    requires forall i :: 0 <= i < |ws| ==> IsWord(ws[i])
    ensures forall i :: 0 <= i < |[w] + ws| ==> IsWord(([w] + ws)[i])
  {
    forall i | 0 <= i < |[w] + ws|
      ensures IsWord(([w] + ws)[i])
    {
      if i > 0 {
        assert ([w] + ws)[i] == ws[i - 1];
      }
    }
  }

  /** A text without words ends, if at all, with a separator. */
  lemma {:induction false} NoWordsEndsWithSeparator(s: string)
    requires s != [] && Words(s) == []
    ensures !Alnum(s[|s| - 1])
  {
    if |s| > 1 && !Alnum(s[0]) {
      NoWordsEndsWithSeparator(s[1..]);
      assert s[1..][|s| - 2] == s[|s| - 1];
    }
  }

  /** Leading separators carry no words. */
  lemma {:induction false} WordsSkip(s: string)
    ensures Words(SkipRun(s)) == Words(s)
  {
    if s != [] && !Alnum(s[0]) {
      WordsSkip(s[1..]);
    }
  }

  /** Words joined with single dashes. */
  function JoinDash(ws: seq<string>): string {
    if ws == [] then [] else if |ws| == 1 then ws[0] else ws[0] + "-" + JoinDash(ws[1..])
  }

  lemma JoinDashCons(w: string, ws: seq<string>)
    requires ws != []
    ensures JoinDash([w] + ws) == w + "-" + JoinDash(ws)
  {
    assert ([w] + ws)[1..] == ws;
  }

  /** Putting a character in front of the first word puts it in front of the joined words. */
  lemma JoinDashExtend(c: char, ws: seq<string>)
    requires Alnum(c) && ws != []
    requires forall i :: 0 <= i < |ws| ==> IsWord(ws[i])
    ensures JoinDash(ExtendWord(c, ws)) == [c] + JoinDash(ws)
  {
    var r := ExtendWord(c, ws);
    if |ws| > 1 {
      ConcatAssoc3([c], ws[0], "-" + JoinDash(ws[1..]));
      ConcatAssoc3([c] + ws[0], "-", JoinDash(ws[1..]));
      ConcatAssoc3(ws[0], "-", JoinDash(ws[1..]));
    }
  }

  /** Joined words start and end with a letter or digit. */
  lemma {:induction false} JoinDashEnds(ws: seq<string>)
    requires forall i :: 0 <= i < |ws| ==> IsWord(ws[i])
    ensures ws == [] <==> JoinDash(ws) == []
    ensures ws != [] ==> Alnum(JoinDash(ws)[0]) && Alnum(JoinDash(ws)[|JoinDash(ws)| - 1])
  {
    if |ws| > 1 {
      JoinDashEnds(ws[1..]);
      var j := JoinDash(ws[1..]);
      assert JoinDash(ws) == ws[0] + "-" + j;
      assert JoinDash(ws)[0] == ws[0][0];
      assert JoinDash(ws)[|JoinDash(ws)| - 1] == j[|j| - 1];
    }
  }

  lemma ConcatAssoc3(a: string, b: string, c: string)
    ensures a + (b + c) == a + b + c
  {
  }

  lemma PrefixNothing(s: string)
    ensures "" + s == s
  {
  }

  lemma AppendNothing(s: string)
    ensures s + [] == s
  {
  }

  /** The dash a separator run at the end leaves after the last word. */
  function Trail(u: string): string {
    if Words(u) != [] && !Alnum(u[|u| - 1]) then "-" else ""
  }

  /** The dash a separator run at the start leaves before the first word. */
  function Lead(u: string): string {
    if u != [] && !Alnum(u[0]) then "-" else ""
  }

  /** The property proved below: collapsing is the words joined by single dashes, with one
      dash for a leading and one for a trailing separator run. */
  ghost predicate CollapsesToWords(u: string) {
    Collapse(u) == Lead(u) + JoinDash(Words(u)) + Trail(u)
  }

  /** A letter or digit followed by nothing. */
  lemma CollapseLastChar(u: string)
    requires |u| == 1 && Alnum(u[0])
    ensures CollapsesToWords(u)
  {
    assert u[1..] == [];
    assert Words(u) == [[u[0]]] && JoinDash(Words(u)) == u;
    assert Collapse(u) == u + [];
    AppendNothing(u);
  }

  /** A letter or digit followed by another: it joins the first word. */
  lemma CollapseInsideWord(u: string)
    requires |u| > 1 && Alnum(u[0]) && Alnum(u[1])
    requires CollapsesToWords(u[1..])
    ensures CollapsesToWords(u)
  {
    var t := u[1..];
    var ws := Words(t);
    var j, e := JoinDash(ws), Trail(t);
    assert Lead(t) == "" && Lead(u) == "";
    PrefixNothing(j);
    assert Collapse(t) == j + e;
    assert Collapse(u) == [u[0]] + (j + e);
    assert Words(u) == ExtendWord(u[0], ws);
    JoinDashExtend(u[0], ws);
    assert t[|t| - 1] == u[|u| - 1];
    assert Trail(u) == e;
    ConcatAssoc3([u[0]], j, e);
    PrefixNothing([u[0]] + j);
  }

  /** A letter or digit followed by a separator: it is a word of its own. */
  lemma CollapseWordEnd(u: string)
    requires |u| > 1 && Alnum(u[0]) && !Alnum(u[1])
    requires CollapsesToWords(u[1..])
    ensures CollapsesToWords(u)
  {
    var t := u[1..];
    var ws := Words(t);
    var j, e := JoinDash(ws), Trail(t);
    assert Lead(t) == "-" && Lead(u) == "";
    assert Collapse(t) == "-" + j + e;
    assert Collapse(u) == [u[0]] + Collapse(t);
    assert Words(u) == [[u[0]]] + ws;
    assert t[|t| - 1] == u[|u| - 1];
    if ws == [] {
      NoWordsEndsWithSeparator(t);
      assert j == [] && e == [];
      assert Collapse(t) == "-";
      assert JoinDash(Words(u)) == [u[0]];
      assert Trail(u) == "-";
      PrefixNothing([u[0]]);
    } else {
      JoinDashCons([u[0]], ws);
      assert Trail(u) == e;
      ConcatAssoc3([u[0]], "-" + j, e);
      ConcatAssoc3([u[0]], "-", j);
      PrefixNothing([u[0]] + "-" + j);
    }
  }

  /** A non-empty suffix ends where the text ends. */
  lemma SuffixLast(s: string, v: string)
    requires |v| <= |s| && v == s[|s| - |v|..] && v != []
    ensures v[|v| - 1] == s[|s| - 1]
  {
  }

  /** From a separator run, the words are those from the next word on. */
  lemma WordsAfterSeparator(u: string)
    requires u != [] && !Alnum(u[0])
    ensures Words(u) == Words(SkipRun(u[1..]))
  {
    WordsSkip(u[1..]);
  }

  /** Skipping a separator run keeps the trailing dash. */
  lemma TrailAfterSeparator(u: string)
    requires u != [] && !Alnum(u[0])
    ensures Trail(u) == Trail(SkipRun(u[1..]))
  {
    var v := SkipRun(u[1..]);
    WordsAfterSeparator(u);
    if Words(v) != [] {
      assert v != [];
      SuffixLast(u[1..], v);
      assert u[1..][|u| - 2] == u[|u| - 1];
    }
  }

  /** A separator run: one dash, then the text from its next word. */
  lemma CollapseSeparator(u: string)
    requires u != [] && !Alnum(u[0])
    requires CollapsesToWords(SkipRun(u[1..]))
    ensures CollapsesToWords(u)
  {
    var v := SkipRun(u[1..]);
    var j, t := JoinDash(Words(v)), Trail(v);
    assert Lead(v) == "";
    PrefixNothing(j);
    assert Collapse(v) == j + t;
    assert Collapse(u) == "-" + (j + t);
    WordsAfterSeparator(u);
    TrailAfterSeparator(u);
    ConcatAssoc3("-", j, t);
  }

  /** `replace(/[^a-z0-9]+/g, '-')` described by words: a dash for a leading separator run,
      then the words joined by single dashes, then a dash for a trailing separator run. */
  lemma {:induction false} CollapseIsJoinedWords(u: string)
    ensures Collapse(u) == Lead(u) + JoinDash(Words(u)) + Trail(u)
    decreases |u|
  {
    if u == [] {
    } else if !Alnum(u[0]) {
      CollapseIsJoinedWords(SkipRun(u[1..]));
      CollapseSeparator(u);
    } else if |u| == 1 {
      CollapseLastChar(u);
    } else {
      CollapseIsJoinedWords(u[1..]);
      if Alnum(u[1]) {
        CollapseInsideWord(u);
      } else {
        CollapseWordEnd(u);
      }
    }
  }

  /** Removing one dash at each end of a dash-wrapped text whose ends are not dashes gives
      back that text. */
  lemma TrimDashesAround(pre: string, j: string, post: string)
    requires pre == [] || pre == "-"
    requires post == [] || post == "-"
    requires j == [] ==> post == []
    requires j == [] || (j[0] != '-' && j[|j| - 1] != '-')
    ensures TrimDashes(pre + j + post) == j
  {
    var s := pre + j + post;
    var a := if s != [] && s[0] == '-' then s[1..] else s;
    assert a == j + post;
  }

  /** The slug is the words of the lower-cased title joined by single dashes: every run of
      other characters between two words becomes exactly one dash, and none is left at
      either end. */
  lemma SlugIsJoinedWords(title: string)
    ensures Slug(title) == JoinDash(Words(Lower(title)))
  {
    var u := Lower(title);
    CollapseIsJoinedWords(u);
    JoinDashEnds(Words(u));
    TrimDashesAround(Lead(u), JoinDash(Words(u)), Trail(u));
  }

  /** A slug is empty exactly when the lower-cased title has no letter or digit, which makes
      such a title fail the schema's required slug. */
  lemma SlugEmptyIff(title: string)
    ensures Slug(title) == [] <==> Alnums(Lower(title)) == []
  {
    var r := Slug(title);
    if r != [] {
      assert Alnum(r[0]);
      AlnumsCons(r[0], r[1..]);
      assert [r[0]] + r[1..] == r;
    }
  }

  /** Collapsing changes nothing in a string that is already dashed. */
  lemma {:induction false} CollapseDashed(s: string)
    requires Dashed(s)
    ensures Collapse(s) == s
    decreases |s|
  {
    if s != [] {
      assert Dashed(s[1..]);
      CollapseDashed(s[1..]);
      if !Alnum(s[0]) {
        assert s[1..] == [] || Alnum(s[1]);
        assert SkipRun(s[1..]) == s[1..];
      }
    }
  }

  /** A slug is its own slug, so the slug of a slug is that slug. */
  lemma SlugOfSlug(s: string)
    requires IsSlug(s)
    ensures Slug(s) == s
  {
    assert Lower(s) == s;
    CollapseDashed(s);
  }

  lemma SlugIdempotent(title: string)
    ensures Slug(Slug(title)) == Slug(title)
  {
    SlugOfSlug(Slug(title));
  }

  // ---------------------------------------------------------------------------
  // Listing

  /** The listing filter: the category when given, the status when given, else published. */
  predicate Listed(p: BlogPost, category: Option<string>, status: Option<string>) {
    && (Truthy(category) ==> p.category == category.value)
    && (if Truthy(status) then StatusName(p.status) == status.value else p.status == Published)
  }

  function Matching(posts: seq<BlogPost>, category: Option<string>, status: Option<string>): (r: seq<BlogPost>)
    ensures forall p :: p in r <==> p in posts && Listed(p, category, status)
    ensures |r| <= |posts|
  {
    if posts == [] then []
    else (if Listed(posts[0], category, status) then [posts[0]] else []) + Matching(posts[1..], category, status)
  }

  /** `Math.ceil(a / b)` for a count `a`. */
  function CeilDiv(a: nat, b: int): (r: int)
    requires b != 0
    ensures b > 0 ==> (r - 1) * b < a <= r * b
  {
    if b > 0 then (a + b - 1) / b else -(a / -b)
  }

  datatype Listing = Listing(posts: seq<BlogPost>, total: nat, page: int, pages: Option<int>)

  /** `.limit(lim).skip(skip)` on a result sequence: a limit of 0 means no limit, a negative
      limit its absolute value. */
  function PageSlice(items: seq<BlogPost>, skip: nat, lim: int): (r: seq<BlogPost>)
    ensures forall p :: p in r ==> p in items
    ensures lim > 0 ==> |r| <= lim
    ensures skip >= |items| ==> r == []
    ensures lim > 0 && skip <= |items| ==>
              r == items[skip..if skip + lim <= |items| then skip + lim else |items|]
    ensures lim == 0 && skip <= |items| ==> r == items[skip..]
  {
    var from := if skip <= |items| then skip else |items|;
    var size := if lim < 0 then -lim else lim;
    var to := if lim == 0 || from + size > |items| then |items| else from + size;
    assert forall p :: p in items[from..to] ==> p in items;
    items[from..to]
  }

  /** getAllPosts over `posts`, taken in the order of the sort on publishedAt.  Absent page
      and limit default to 1 and 10, and the page starts after (page - 1) * limit matching
      posts.  A negative skip is refused by the database (500).  `pages` is `None` where the
      division gives Infinity. */
  function ListPosts(posts: seq<BlogPost>, category: Option<string>, status: Option<string>,
                     page: Option<int>, limit: Option<int>): (r: Result<Listing>)
    ensures var pg := if page.Some? then page.value else 1;
            var lim := if limit.Some? then limit.value else 10;
            var skip := (pg - 1) * lim;
            && (r.Ok? <==> skip >= 0)
            && (r.Err? ==> r == Err(500, ServerError))
            && (r.Ok? ==>
                && r.value.total == |Matching(posts, category, status)| && r.value.page == pg
                && r.value.posts == PageSlice(Matching(posts, category, status), skip, lim)
                && (forall p :: p in r.value.posts ==> p in posts && Listed(p, category, status))
                && (lim == 0 <==> r.value.pages.None?)
                && (lim != 0 ==> r.value.pages == Some(CeilDiv(r.value.total, lim))))
  {
    var pg := if page.Some? then page.value else 1;
    var lim := if limit.Some? then limit.value else 10;
    var skip := (pg - 1) * lim;
    if skip < 0 then
      Err(500, ServerError)
    else
      var matching := Matching(posts, category, status);
      Ok(Listing(PageSlice(matching, skip, lim), |matching|, pg,
                 if lim == 0 then None else Some(CeilDiv(|matching|, lim))))
  }

  /** With a positive limit, the matching post at index q * lim + m (m below the limit) is
      entry m of page q + 1, and that page is within the page count.  Every index has
      exactly one such q and m, so every matching post is listed on exactly one page. */
  lemma EveryPostOnItsPage(posts: seq<BlogPost>, category: Option<string>, status: Option<string>,
                           lim: int, q: nat, m: nat)
    requires lim > 0 && m < lim && q * lim + m < |Matching(posts, category, status)|
    ensures var r := ListPosts(posts, category, status, Some(q + 1), Some(lim));
            && r.Ok? && m < |r.value.posts|
            && r.value.posts[m] == Matching(posts, category, status)[q * lim + m]
            && q + 1 <= r.value.pages.value
  {
    var matching := Matching(posts, category, status);
    var skip := q * lim;
    assert (q + 1 - 1) * lim == skip;
    var r := ListPosts(posts, category, status, Some(q + 1), Some(lim));
    assert r.Ok? && r.value.posts == PageSlice(matching, skip, lim);
    assert r.value.pages == Some(CeilDiv(|matching|, lim));
    PageHoldsIndex(matching, skip, lim, m);
    PageWithinCount(|matching|, lim, q, skip + m);
  }

  /** Position m of the page that skips `skip` items is item skip + m. */
  lemma PageHoldsIndex(items: seq<BlogPost>, skip: nat, lim: int, m: nat)
    requires lim > 0 && m < lim && skip + m < |items|
    ensures m < |PageSlice(items, skip, lim)| && PageSlice(items, skip, lim)[m] == items[skip + m]
  {
  }

  /** A page whose skip q * lim is at most an index below the total is within the page count. */
  lemma PageWithinCount(total: nat, lim: int, q: nat, i: nat)
    requires lim > 0 && q * lim <= i < total
    ensures q + 1 <= CeilDiv(total, lim)
  {
    var pages := CeilDiv(total, lim);
    if pages < q + 1 {
      MulMono(pages, q, lim);
    }
  }

  lemma MulMono(a: int, b: int, c: int)
    requires a <= b && c >= 0
    ensures a * c <= b * c
  {
    assert b * c - a * c == (b - a) * c;
  }

  // ---------------------------------------------------------------------------
  // Writes

  predicate HasRequiredFields(input: PostInput) {
    Truthy(input.title) && Truthy(input.content) && Truthy(input.excerpt) && Truthy(input.category)
  }

  /** Some post other than `except` already has this slug (the unique index). */
  predicate SlugTaken(posts: map<Id, BlogPost>, slug: string, except: Option<Id>) {
    exists k :: k in posts && Some(k) != except && posts[k].slug == slug
  }

  /** The invariants of the collection: slugs are unique, every slug has the slug shape,
      and every published post has a publication date. */
  ghost predicate Consistent(posts: map<Id, BlogPost>) {
    && (forall a, b :: a in posts && b in posts && a != b ==> posts[a].slug != posts[b].slug)
    && (forall a :: a in posts ==> IsSlug(posts[a].slug) && posts[a].slug != "")
    && (forall a :: a in posts && posts[a].status == Published ==> posts[a].publishedAt.Some?)
  }

  /** `status || 'draft'` passes the schema enumeration. */
  predicate StatusAccepted(status: Option<string>) {
    !Truthy(status) || status.value == "draft" || status.value == "published"
  }

  /** What the schema asks of a new post beyond the fields checked by hand: a status in the
      enumeration, an author, an image URL and a slug that are not empty. */
  predicate CreateAccepted(caller: Caller, input: PostInput, upload: Upload)
    requires HasRequiredFields(input) && upload.Uploaded?
  {
    StatusAccepted(input.status) && caller.userId.Some? && upload.url != "" && Slug(input.title.value) != ""
  }

  /** createPost.  400 for a missing field, 400 without a file; an upload that throws is 500.
      The status defaults to draft and must be draft or published, the author, the image URL
      and the slug must not be empty (all 500 otherwise); a slug already in use is 400.
      publishedAt is `now` exactly when the status is published. */
  function CreatePost(caller: Caller, posts: map<Id, BlogPost>, input: PostInput, upload: Upload, now: int): (r: Result<BlogPost>)
    ensures !HasRequiredFields(input) ==> r == Err(400, MissingFields)
    ensures HasRequiredFields(input) && upload.NoFile? ==> r == Err(400, ImageRequired)
    ensures HasRequiredFields(input) && upload.UploadFailed? ==> r == Err(500, ServerError)
    ensures HasRequiredFields(input) && upload.Uploaded? && !CreateAccepted(caller, input, upload) ==>
              r == Err(500, ServerError)
    ensures HasRequiredFields(input) && upload.Uploaded? && CreateAccepted(caller, input, upload)
            && SlugTaken(posts, Slug(input.title.value), None) ==>
              r == Err(400, TitleExists)
    ensures r.Ok? <==>
              && HasRequiredFields(input) && upload.Uploaded? && CreateAccepted(caller, input, upload)
              && !SlugTaken(posts, Slug(input.title.value), None)
    ensures r.Ok? ==>
              && r.value.title == input.title.value
              && r.value.content == input.content.value
              && r.value.excerpt == input.excerpt.value
              && r.value.category == input.category.value
              && r.value.featuredImage == upload.url
              && r.value.slug == Slug(input.title.value)
              && Some(r.value.author) == caller.userId
              && (r.value.status == Published <==> input.status == Some("published"))
              && (r.value.publishedAt == Some(now) <==> input.status == Some("published"))
              && (r.value.publishedAt.None? <==> input.status != Some("published"))
              && r.value.views == 0
  {
    if !HasRequiredFields(input) then
      Err(400, MissingFields)
    else if upload.NoFile? then
      Err(400, ImageRequired)
    else if upload.UploadFailed? then
      Err(500, ServerError)
    else if !CreateAccepted(caller, input, upload) then
      Err(500, ServerError)
    else
      var slug := Slug(input.title.value);
      if SlugTaken(posts, slug, None) then
        Err(400, TitleExists)
      else
        var published := input.status == Some("published");
        Ok(BlogPost(input.title.value, input.content.value, input.excerpt.value, upload.url, input.category.value,
                    slug, caller.userId.value, if published then Published else Draft,
                    if published then Some(now) else None, 0))
  }

  /** The publication date rule of updatePost: `now` when the post moves from draft to
      published, the stored date otherwise.  A published post never has its date moved, and
      nothing but publishing touches the date. */
  function PublishedAtAfterUpdate(stored: BlogPost, status: Option<string>, now: int): (r: Option<int>)
    ensures stored.status == Draft && status == Some("published") ==> r == Some(now)
    ensures stored.status == Published ==> r == stored.publishedAt
    ensures status != Some("published") ==> r == stored.publishedAt
  {
    if status == Some("published") && stored.status == Draft then Some(now) else stored.publishedAt
  }

  /** The image after an update: the new upload's URL, or the stored one. */
  function ImageAfter(stored: BlogPost, upload: Upload): string {
    if upload.Uploaded? then upload.url else stored.featuredImage
  }

  /** The slug after an update: recomputed from a truthy new title, kept otherwise. */
  function SlugAfter(stored: BlogPost, input: PostInput): string {
    if Truthy(input.title) then Slug(input.title.value) else stored.slug
  }

  /** What `runValidators` and the unique index accept of an update: no required field
      sent empty, a sent status in the enumeration, an image and a slug that are not empty,
      and a slug no other post has. */
  predicate UpdateAccepted(posts: map<Id, BlogPost>, id: Id, input: PostInput, upload: Upload)
    requires id in posts
  {
    && input.title != Some("") && input.content != Some("")
    && input.excerpt != Some("") && input.category != Some("")
    && (input.status.Some? ==> ParseStatus(input.status.value).Some?)
    && ImageAfter(posts[id], upload) != ""
    && SlugAfter(posts[id], input) != ""
    && !SlugTaken(posts, SlugAfter(posts[id], input), Some(id))
  }

  /** updatePost.  404 for an unknown id, 403 unless admin or author; an upload that throws
      is 500.  The slug is recomputed from a truthy new title and kept otherwise; fields
      absent from the body keep their stored values; a required field sent empty, a status
      outside the enumeration, an empty slug or image, or a slug another post has, all end
      in the catch-all (500).  Author and views never change. */
  function UpdatePost(caller: Caller, posts: map<Id, BlogPost>, id: Id, input: PostInput, upload: Upload, now: int): (r: Result<BlogPost>)
    ensures id !in posts ==> r == Err(404, PostNotFound)
    ensures id in posts && !OwnerOrAdmin(caller, posts[id].author) ==> r == Err(403, NotYourPost)
    ensures id in posts && OwnerOrAdmin(caller, posts[id].author) && upload.UploadFailed? ==> r == Err(500, ServerError)
    ensures id in posts && OwnerOrAdmin(caller, posts[id].author) && !upload.UploadFailed?
            && !UpdateAccepted(posts, id, input, upload) ==>
              r == Err(500, ServerError)
    ensures r.Ok? <==>
              && id in posts && OwnerOrAdmin(caller, posts[id].author) && !upload.UploadFailed?
              && UpdateAccepted(posts, id, input, upload)
    ensures r.Ok? ==>
              var stored := posts[id];
              && r.value.title == (if input.title.Some? then input.title.value else stored.title)
              && r.value.content == (if input.content.Some? then input.content.value else stored.content)
              && r.value.excerpt == (if input.excerpt.Some? then input.excerpt.value else stored.excerpt)
              && r.value.category == (if input.category.Some? then input.category.value else stored.category)
              && r.value.author == stored.author && r.value.views == stored.views
              && (Truthy(input.title) ==> r.value.slug == Slug(input.title.value))
              && (!Truthy(input.title) ==> r.value.slug == stored.slug)
              && r.value.publishedAt == PublishedAtAfterUpdate(stored, input.status, now)
              && (input.status.None? ==> r.value.status == stored.status)
              && (input.status.Some? ==> StatusName(r.value.status) == input.status.value)
              && (upload.NoFile? ==> r.value.featuredImage == stored.featuredImage)
              && (upload.Uploaded? ==> r.value.featuredImage == upload.url)
  {
    if id !in posts then
      Err(404, PostNotFound)
    else
      var stored := posts[id];
      if !OwnerOrAdmin(caller, stored.author) then
        Err(403, NotYourPost)
      else if upload.UploadFailed? then
        Err(500, ServerError)
      else if !UpdateAccepted(posts, id, input, upload) then
        Err(500, ServerError)
      else
        Ok(BlogPost(
          if input.title.Some? then input.title.value else stored.title,
          if input.content.Some? then input.content.value else stored.content,
          if input.excerpt.Some? then input.excerpt.value else stored.excerpt,
          ImageAfter(stored, upload),
          if input.category.Some? then input.category.value else stored.category,
          SlugAfter(stored, input),
          stored.author,
          if input.status.Some? then ParseStatus(input.status.value).value else stored.status,
          PublishedAtAfterUpdate(stored, input.status, now),
          stored.views))
  }

  /** Storing a post with a well-formed slug no other post has, and a publication date if
      it is published, keeps the collection consistent. */
  lemma StoreKeepsConsistent(posts: map<Id, BlogPost>, id: Id, post: BlogPost)
    requires Consistent(posts)
    requires IsSlug(post.slug) && post.slug != "" && !SlugTaken(posts, post.slug, Some(id))
    requires post.status == Published ==> post.publishedAt.Some?
    ensures Consistent(posts[id := post])
  {
    var next := posts[id := post];
    forall a, b | a in next && b in next && a != b ensures next[a].slug != next[b].slug {
      if a == id { assert b in posts; } else if b == id { assert a in posts; }
    }
  }

  /** Storing what create returns under a fresh id keeps slugs unique and well formed, and
      published posts dated. */
  lemma CreateKeepsConsistent(caller: Caller, posts: map<Id, BlogPost>, id: Id, input: PostInput, upload: Upload, now: int)
    requires Consistent(posts) && id !in posts && CreatePost(caller, posts, input, upload, now).Ok?
    ensures Consistent(posts[id := CreatePost(caller, posts, input, upload, now).value])
  {
    var post := CreatePost(caller, posts, input, upload, now).value;
    assert !SlugTaken(posts, post.slug, Some(id)) by {
      assert !SlugTaken(posts, post.slug, None);
    }
    StoreKeepsConsistent(posts, id, post);
  }

  /** Storing what update returns under its id keeps the same invariants. */
  lemma UpdateKeepsConsistent(caller: Caller, posts: map<Id, BlogPost>, id: Id, input: PostInput, upload: Upload, now: int)
    requires Consistent(posts) && UpdatePost(caller, posts, id, input, upload, now).Ok?
    ensures Consistent(posts[id := UpdatePost(caller, posts, id, input, upload, now).value])
  {
    var post := UpdatePost(caller, posts, id, input, upload, now).value;
    var stored := posts[id];
    if Truthy(input.title) {
      assert IsSlug(post.slug);
    } else {
      assert post.slug == stored.slug;
    }
    if post.status == Published {
      if input.status.Some? {
        assert input.status.value == "published";
      }
    }
    StoreKeepsConsistent(posts, id, post);
  }

  /** The post collection, for the read that counts views. */
  class BlogStore {
    var posts: map<Id, BlogPost>

    ghost predicate Valid()
      reads this
    {
      Consistent(posts)
    }

    constructor ()
      ensures Valid() && posts == map[]
    {
      posts := map[];
    }

    /** getPostBySlug: 404 when no post has the slug; otherwise that post's views go up by
        exactly one, nothing else changes, and the updated post is returned. */
    method GetPostBySlug(slug: string) returns (r: Result<BlogPost>)
      requires Valid()
      modifies this
      ensures Valid()
      ensures (forall id :: id in old(posts) ==> old(posts)[id].slug != slug) ==>
                r == Err(404, PostNotFound) && posts == old(posts)
      ensures forall id :: id in old(posts) && old(posts)[id].slug == slug ==>
                && posts == old(posts)[id := old(posts)[id].(views := old(posts)[id].views + 1)]
                && r == Ok(posts[id])
    {
      if id :| id in posts && posts[id].slug == slug {
        var post := posts[id];
        post := post.(views := post.views + 1);
        posts := posts[id := post];
        r := Ok(post);
      } else {
        r := Err(404, PostNotFound);
      }
    }
  }
}
