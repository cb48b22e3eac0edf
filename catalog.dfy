/**
 * The in-memory catalog queries of MainViewModel: the LINQ pipelines
 * `Playlists.Where(..).FirstOrDefault()` of GetPlaylist and
 * `Playlists.Where(..).SelectMany(c => c.Videos).SingleOrDefault(..)` of
 * GetVideo, written as functions over sequences, with lemmas that say what
 * they find in terms of positions (playlist index, video index) in the catalog.
 */
module Catalog {
  import opened Wrappers
  import opened Models

  // ---------------------------------------------------------------------------
  // Playlists.Where(c => c.Name == playlistName)

  /** The playlists named `n`, in catalog order. */
  function Named(ps: seq<Playlist>, n: string): (r: seq<Playlist>)
    ensures |r| <= |ps|
    ensures (forall k :: 0 <= k < |ps| ==> ps[k].name != n) ==> r == []
  {
    if ps == [] then []
    else (if ps[0].name == n then [ps[0]] else []) + Named(ps[1..], n)
  }

  /** A playlist survives the filter exactly when it is in the catalog and has the requested name. */
  lemma {:induction false} NamedMember(ps: seq<Playlist>, n: string, p: Playlist)
    ensures p in Named(ps, n) <==> p in ps && p.name == n
  {
    if ps != [] {
      NamedMember(ps[1..], n, p);
      assert ps == [ps[0]] + ps[1..];
    }
  }

  /** The index of the first playlist named `n`, or `|ps|` when there is none. */
  function FirstNamed(ps: seq<Playlist>, n: string): (k: nat)
    ensures k <= |ps|
    ensures k < |ps| ==> ps[k].name == n
    ensures forall j :: 0 <= j < k ==> ps[j].name != n
  {
    if ps == [] then 0
    else if ps[0].name == n then 0
    else 1 + FirstNamed(ps[1..], n)
  }

  /** `Where(c => c.Name == n).FirstOrDefault()`; `None` is C#'s null. */
  function FirstOrDefault(ps: seq<Playlist>, n: string): (r: Option<Playlist>)
    ensures r.Some? ==> r.value in ps && r.value.name == n
  {
    var w := Named(ps, n);
    if w == [] then None else NamedMember(ps, n, w[0]); Some(w[0])
  }

  /** FirstOrDefault finds the first playlist named `n`, and null exactly when no playlist has that name. */
  lemma {:induction false} FirstOrDefaultIsFirst(ps: seq<Playlist>, n: string)
    ensures FirstOrDefault(ps, n) == if FirstNamed(ps, n) < |ps| then Some(ps[FirstNamed(ps, n)]) else None
    ensures FirstOrDefault(ps, n).None? <==> forall k :: 0 <= k < |ps| ==> ps[k].name != n
  {
    if ps != [] && ps[0].name != n {
      FirstOrDefaultIsFirst(ps[1..], n);
      assert Named(ps, n) == Named(ps[1..], n);
      assert forall k :: 1 <= k < |ps| ==> ps[k] == ps[1..][k - 1];
    }
  }

  // ---------------------------------------------------------------------------
  // .SelectMany(c => c.Videos)

  /** The videos of `ps`, playlist after playlist. */
  function Flatten(ps: seq<Playlist>): (r: seq<Video>)
    ensures forall i, j :: 0 <= i < |ps| && 0 <= j < |ps[i].videos| ==> ps[i].videos[j] in r
  {
    if ps == [] then [] else ps[0].videos + Flatten(ps[1..])
  }

  /** The videos of every playlist named `pl`, in catalog order. */
  function CatalogVideos(ps: seq<Playlist>, pl: string): (r: seq<Video>)
    ensures (forall k :: 0 <= k < |ps| ==> ps[k].name != pl) ==> r == []
  {
    Flatten(Named(ps, pl))
  }

  /** Peeling the first playlist off the catalog. */
  lemma CatalogVideosCons(ps: seq<Playlist>, pl: string)
    requires ps != []
    ensures CatalogVideos(ps, pl) == (if ps[0].name == pl then ps[0].videos else []) + CatalogVideos(ps[1..], pl)
  {
    var w := Named(ps[1..], pl);
    if ps[0].name == pl {
      assert Named(ps, pl) == [ps[0]] + w;
      assert ([ps[0]] + w)[0] == ps[0];
      assert ([ps[0]] + w)[1..] == w;
    } else {
      assert Named(ps, pl) == [] + w == w;
    }
  }

  /** A video is in the flattened catalog exactly when it sits at some position of a playlist named `pl`. */
  lemma {:induction false} CatalogVideosMember(ps: seq<Playlist>, pl: string, v: Video)
    ensures v in CatalogVideos(ps, pl) <==>
      exists i, j :: 0 <= i < |ps| && ps[i].name == pl && 0 <= j < |ps[i].videos| && ps[i].videos[j] == v
  {
    if ps != [] {
      CatalogVideosCons(ps, pl);
      CatalogVideosMember(ps[1..], pl, v);
      if v in CatalogVideos(ps, pl) {
        if ps[0].name == pl && v in ps[0].videos {
          var j :| 0 <= j < |ps[0].videos| && ps[0].videos[j] == v;
          assert ps[0].name == pl && ps[0].videos[j] == v;
        } else {
          assert v in CatalogVideos(ps[1..], pl);
          var i, j :| 0 <= i < |ps[1..]| && ps[1..][i].name == pl && 0 <= j < |ps[1..][i].videos| && ps[1..][i].videos[j] == v;
          assert ps[i + 1].name == pl && ps[i + 1].videos[j] == v;
        }
      }
      if exists i, j :: 0 <= i < |ps| && ps[i].name == pl && 0 <= j < |ps[i].videos| && ps[i].videos[j] == v {
        var i, j :| 0 <= i < |ps| && ps[i].name == pl && 0 <= j < |ps[i].videos| && ps[i].videos[j] == v;
        if i > 0 {
          assert ps[1..][i - 1].videos[j] == v;
        }
      }
    }
  }

  // ---------------------------------------------------------------------------
  // .SingleOrDefault(v => v.Name == name)

  /** The videos of `vs` named `name`, in order. */
  function Matches(vs: seq<Video>, name: string): (r: seq<Video>)
    ensures |r| <= |vs|
  {
    if vs == [] then []
    else (if vs[0].name == name then [vs[0]] else []) + Matches(vs[1..], name)
  }

  /** A video survives the filter exactly when it is in the sequence and has the requested name. */
  lemma {:induction false} MatchesMember(vs: seq<Video>, name: string, v: Video)
    ensures v in Matches(vs, name) <==> v in vs && v.name == name
  {
    if vs != [] {
      MatchesMember(vs[1..], name, v);
      assert vs == [vs[0]] + vs[1..];
    }
  }

  /**
   * What LINQ's SingleOrDefault produces: the default (null) when nothing
   * matches, the one match, or an InvalidOperationException when two or more
   * elements match.
   */
  datatype Single = NoElement | Element(value: Video) | Duplicate

  /** SingleOrDefault with the predicate `v.Name == name`; the outcome depends only on how many elements match. */
  function SingleOrDefault(vs: seq<Video>, name: string): (r: Single)
    ensures r.NoElement? <==> |Matches(vs, name)| == 0
    ensures r.Element? <==> |Matches(vs, name)| == 1
    ensures r.Duplicate? <==> |Matches(vs, name)| >= 2
    ensures r.Element? ==> r.value == Matches(vs, name)[0]
  {
    if vs == [] then NoElement
    else
      var rest := SingleOrDefault(vs[1..], name);
      if vs[0].name != name then rest
      else if rest.NoElement? then Element(vs[0])
      else Duplicate
  }

  /** Filtering distributes over concatenation. */
  lemma {:induction false} MatchesAppend(a: seq<Video>, b: seq<Video>, name: string)
    ensures Matches(a + b, name) == Matches(a, name) + Matches(b, name)
  {
    if a == [] {
      assert a + b == b;
    } else {
      var h := if a[0].name == name then [a[0]] else [];
      assert (a + b)[0] == a[0] && (a + b)[1..] == a[1..] + b;
      calc {
        Matches(a + b, name);
        h + Matches(a[1..] + b, name);
        { MatchesAppend(a[1..], b, name); }
        h + (Matches(a[1..], name) + Matches(b, name));
        (h + Matches(a[1..], name)) + Matches(b, name);
      }
    }
  }

  /** A sequence with no video named `name` filters to nothing. */
  lemma {:induction false} MatchesNone(vs: seq<Video>, name: string)
    requires forall k :: 0 <= k < |vs| ==> vs[k].name != name
    ensures Matches(vs, name) == []
  {
    if vs != [] {
      MatchesNone(vs[1..], name);
    }
  }

  /** A sequence with exactly one video named `name`, at `j`, filters to that video alone. */
  lemma {:induction false} MatchesUnique(vs: seq<Video>, name: string, j: nat)
    requires j < |vs| && vs[j].name == name
    requires forall k :: 0 <= k < |vs| && k != j ==> vs[k].name != name
    ensures Matches(vs, name) == [vs[j]]
  {
    if j == 0 {
      MatchesNone(vs[1..], name);
    } else {
      MatchesUnique(vs[1..], name, j - 1);
    }
  }

  /** Two distinct positions holding videos named `name` give at least two matches. */
  lemma {:induction false} MatchesTwo(vs: seq<Video>, name: string, j1: nat, j2: nat)
    requires j1 < |vs| && j2 < |vs| && j1 != j2
    requires vs[j1].name == name && vs[j2].name == name
    ensures |Matches(vs, name)| >= 2
  {
    if j1 == 0 {
      assert vs[1..][j2 - 1] == vs[j2];
      MatchesMember(vs[1..], name, vs[j2]);
    } else if j2 == 0 {
      assert vs[1..][j1 - 1] == vs[j1];
      MatchesMember(vs[1..], name, vs[j1]);
    } else {
      MatchesTwo(vs[1..], name, j1 - 1, j2 - 1);
    }
  }

  // ---------------------------------------------------------------------------
  // The catalog lookup of GetVideo, by position

  /** The video at index `j` of playlist `i` is named `name` and that playlist is named `pl`. */
  predicate VideoAt(ps: seq<Playlist>, pl: string, name: string, i: int, j: int)
  {
    0 <= i < |ps| && ps[i].name == pl && 0 <= j < |ps[i].videos| && ps[i].videos[j].name == name
  }

  /** The memory-store query of GetVideo. */
  function Lookup(ps: seq<Playlist>, pl: string, name: string): (r: Single)
    ensures r.Element? ==> r.value in CatalogVideos(ps, pl) && r.value.name == name
  {
    var cv := CatalogVideos(ps, pl);
    var r := SingleOrDefault(cv, name);
    if r.Element? then MatchesMember(cv, name, r.value); r else r
  }

  /** The lookup gives null exactly when no playlist named `pl` holds a video named `name`. */
  lemma LookupNone(ps: seq<Playlist>, pl: string, name: string)
    ensures Lookup(ps, pl, name).NoElement? <==> forall i, j :: !VideoAt(ps, pl, name, i, j)
  {
    var cv := CatalogVideos(ps, pl);
    if exists i, j :: VideoAt(ps, pl, name, i, j) {
      var i, j :| VideoAt(ps, pl, name, i, j);
      CatalogVideosMember(ps, pl, ps[i].videos[j]);
      MatchesMember(cv, name, ps[i].videos[j]);
    }
    if !Lookup(ps, pl, name).NoElement? {
      var v := Matches(cv, name)[0];
      MatchesMember(cv, name, v);
      CatalogVideosMember(ps, pl, v);
      var i, j :| 0 <= i < |ps| && ps[i].name == pl && 0 <= j < |ps[i].videos| && ps[i].videos[j] == v;
      assert VideoAt(ps, pl, name, i, j);
    }
  }

  /** Positions in the catalog without its first playlist are the positions after the first. */
  lemma VideoAtTail(ps: seq<Playlist>, pl: string, name: string, i: int, j: int)
    requires ps != []
    ensures VideoAt(ps[1..], pl, name, i, j) <==> i >= 0 && VideoAt(ps, pl, name, i + 1, j)
  {
  }

  /** The same, seen from a position of the whole catalog after its first playlist. */
  lemma VideoAtShift(ps: seq<Playlist>, pl: string, name: string, i: int, j: int)
    requires ps != [] && i > 0
    ensures VideoAt(ps, pl, name, i, j) <==> VideoAt(ps[1..], pl, name, i - 1, j)
  {
  }

  /** The first playlist contributes no match when no position in it matches. */
  lemma HeadMatchesNone(ps: seq<Playlist>, pl: string, name: string)
    requires ps != []
    requires forall k :: !VideoAt(ps, pl, name, 0, k)
    ensures Matches(if ps[0].name == pl then ps[0].videos else [], name) == []
  {
    var head := if ps[0].name == pl then ps[0].videos else [];
    forall k | 0 <= k < |head| ensures head[k].name != name {
      assert !VideoAt(ps, pl, name, 0, k);
    }
    MatchesNone(head, name);
  }

  /** The matches of the catalog are those of its first playlist, when named `pl`, then those of the rest. */
  lemma CatalogMatchesCons(ps: seq<Playlist>, pl: string, name: string)
    requires ps != []
    ensures Matches(CatalogVideos(ps, pl), name) ==
      Matches(if ps[0].name == pl then ps[0].videos else [], name) + Matches(CatalogVideos(ps[1..], pl), name)
  {
    CatalogVideosCons(ps, pl);
    MatchesAppend(if ps[0].name == pl then ps[0].videos else [], CatalogVideos(ps[1..], pl), name);
  }

  /** The only matching position is in the first playlist: its matches are that video and the rest has none. */
  lemma UniqueAtHead(ps: seq<Playlist>, pl: string, name: string, j: nat)
    requires VideoAt(ps, pl, name, 0, j)
    requires forall i', j' :: VideoAt(ps, pl, name, i', j') ==> i' == 0 && j' == j
    ensures Matches(ps[0].videos, name) == [ps[0].videos[j]]
    ensures Matches(CatalogVideos(ps[1..], pl), name) == []
  {
    forall k | 0 <= k < |ps[0].videos| && k != j ensures ps[0].videos[k].name != name {
      assert !VideoAt(ps, pl, name, 0, k);
    }
    MatchesUnique(ps[0].videos, name, j);
    forall i', j' ensures !VideoAt(ps[1..], pl, name, i', j') {
      VideoAtTail(ps, pl, name, i', j');
    }
    LookupNone(ps[1..], pl, name);
  }

  /** The only matching position is past the first playlist: it is the only one of the rest. */
  lemma UniqueInTail(ps: seq<Playlist>, pl: string, name: string, i: nat, j: nat)
    requires VideoAt(ps, pl, name, i, j) && i > 0
    requires forall i', j' :: VideoAt(ps, pl, name, i', j') ==> i' == i && j' == j
    ensures forall k :: !VideoAt(ps, pl, name, 0, k)
    ensures VideoAt(ps[1..], pl, name, i - 1, j)
    ensures forall i', j' :: VideoAt(ps[1..], pl, name, i', j') ==> i' == i - 1 && j' == j
  {
    forall i', j' | VideoAt(ps[1..], pl, name, i', j') ensures i' == i - 1 && j' == j {
      VideoAtTail(ps, pl, name, i', j');
    }
    VideoAtShift(ps, pl, name, i, j);
  }

  /** When `(i, j)` is the only matching position, the filtered catalog is that one video. */
  lemma {:induction false} CatalogMatchesUnique(ps: seq<Playlist>, pl: string, name: string, i: nat, j: nat)
    requires VideoAt(ps, pl, name, i, j)
    requires forall i', j' :: VideoAt(ps, pl, name, i', j') ==> i' == i && j' == j
    ensures Matches(CatalogVideos(ps, pl), name) == [ps[i].videos[j]]
  {
    CatalogMatchesCons(ps, pl, name);
    if i == 0 {
      UniqueAtHead(ps, pl, name, j);
    } else {
      UniqueInTail(ps, pl, name, i, j);
      HeadMatchesNone(ps, pl, name);
      CatalogMatchesUnique(ps[1..], pl, name, i - 1, j);
      assert ps[1..][i - 1] == ps[i];
    }
  }

  /** A matching position outside the first playlist gives the rest of the catalog a match. */
  lemma TailHasMatch(ps: seq<Playlist>, pl: string, name: string, i: nat, j: nat)
    requires VideoAt(ps, pl, name, i, j) && i > 0
    ensures |Matches(CatalogVideos(ps[1..], pl), name)| >= 1
  {
    VideoAtShift(ps, pl, name, i, j);
    LookupNone(ps[1..], pl, name);
  }

  /** A matching position in the first playlist gives that playlist a match. */
  lemma HeadHasMatch(ps: seq<Playlist>, pl: string, name: string, j: nat)
    requires VideoAt(ps, pl, name, 0, j)
    ensures |Matches(ps[0].videos, name)| >= 1
  {
    MatchesMember(ps[0].videos, name, ps[0].videos[j]);
  }

  /** Two distinct matching positions, one of them in the first playlist, give at least two matches. */
  lemma CatalogMatchesTwoAtHead(ps: seq<Playlist>, pl: string, name: string, i1: nat, j1: nat, i2: nat, j2: nat)
    requires VideoAt(ps, pl, name, i1, j1) && VideoAt(ps, pl, name, i2, j2)
    requires i1 != i2 || j1 != j2
    requires i1 == 0 || i2 == 0
    ensures |Matches(CatalogVideos(ps, pl), name)| >= 2
  {
    CatalogMatchesCons(ps, pl, name);
    if i1 == 0 && i2 == 0 {
      MatchesTwo(ps[0].videos, name, j1, j2);
    } else if i1 == 0 {
      HeadHasMatch(ps, pl, name, j1);
      TailHasMatch(ps, pl, name, i2, j2);
    } else {
      HeadHasMatch(ps, pl, name, j2);
      TailHasMatch(ps, pl, name, i1, j1);
    }
  }

  /** Two distinct matching positions give at least two matching videos. */
  lemma {:induction false} CatalogMatchesTwo(ps: seq<Playlist>, pl: string, name: string, i1: nat, j1: nat, i2: nat, j2: nat)
    requires VideoAt(ps, pl, name, i1, j1) && VideoAt(ps, pl, name, i2, j2)
    requires i1 != i2 || j1 != j2
    ensures |Matches(CatalogVideos(ps, pl), name)| >= 2
  {
    if i1 == 0 || i2 == 0 {
      CatalogMatchesTwoAtHead(ps, pl, name, i1, j1, i2, j2);
    } else {
      VideoAtShift(ps, pl, name, i1, j1);
      VideoAtShift(ps, pl, name, i2, j2);
      CatalogMatchesTwo(ps[1..], pl, name, i1 - 1, j1, i2 - 1, j2);
      CatalogMatchesCons(ps, pl, name);
    }
  }

  /** A single matching position across all playlists named `pl` is the video the lookup returns. */
  lemma LookupUnique(ps: seq<Playlist>, pl: string, name: string, i: nat, j: nat)
    requires VideoAt(ps, pl, name, i, j)
    requires forall i', j' :: VideoAt(ps, pl, name, i', j') ==> i' == i && j' == j
    ensures Lookup(ps, pl, name) == Element(ps[i].videos[j])
  {
    CatalogMatchesUnique(ps, pl, name, i, j);
  }

  /** Two matching positions, in one playlist or in two playlists of the same name, make the lookup throw. */
  lemma LookupDuplicate(ps: seq<Playlist>, pl: string, name: string, i1: nat, j1: nat, i2: nat, j2: nat)
    requires VideoAt(ps, pl, name, i1, j1) && VideoAt(ps, pl, name, i2, j2)
    requires i1 != i2 || j1 != j2
    ensures Lookup(ps, pl, name) == Duplicate
  {
    CatalogMatchesTwo(ps, pl, name, i1, j1, i2, j2);
  }

  /** Converse of LookupUnique: a found video sits at exactly one matching position. */
  lemma LookupElement(ps: seq<Playlist>, pl: string, name: string)
    requires Lookup(ps, pl, name).Element?
    ensures exists i, j :: VideoAt(ps, pl, name, i, j) && ps[i].videos[j] == Lookup(ps, pl, name).value &&
                           forall i', j' :: VideoAt(ps, pl, name, i', j') ==> i' == i && j' == j
  {
    LookupNone(ps, pl, name);
    var i, j :| VideoAt(ps, pl, name, i, j);
    forall i', j' | VideoAt(ps, pl, name, i', j') ensures i' == i && j' == j {
      if i' != i || j' != j {
        LookupDuplicate(ps, pl, name, i, j, i', j');
      }
    }
    LookupUnique(ps, pl, name, i, j);
  }

  /** Converse of LookupDuplicate: a throwing lookup has two distinct matching positions. */
  lemma LookupDuplicateWitness(ps: seq<Playlist>, pl: string, name: string)
    requires Lookup(ps, pl, name).Duplicate?
    ensures exists i1, j1, i2, j2 :: VideoAt(ps, pl, name, i1, j1) && VideoAt(ps, pl, name, i2, j2) && (i1 != i2 || j1 != j2)
  {
    LookupNone(ps, pl, name);
    var i, j :| VideoAt(ps, pl, name, i, j);
    if forall i', j' :: VideoAt(ps, pl, name, i', j') ==> i' == i && j' == j {
      LookupUnique(ps, pl, name, i, j);
      assert false;
    }
    var i', j' :| VideoAt(ps, pl, name, i', j') && !(i' == i && j' == j);
    assert VideoAt(ps, pl, name, i, j) && VideoAt(ps, pl, name, i', j') && (i != i' || j != j');
  }
}
