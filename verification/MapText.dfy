/**
 Writing a view table as text and reading it back: mapget, mapdump, mapinit and the part of
 mapset that is in use while the tables are initialized (src/cmd/3d/map.c:35-178, 487-531,
 616-670).
 */
module MapText {
  import opened Names
  import opened ViewTable

  const PREFIX: string := "vpath "

  // ------------------------------------------------------------------ writing

  /** One mapping, with a space behind it. */
  function Entry(m: Map): string {
    m.key + " " + m.val + " "
  }

  function Body(s: seq<Map>): string {
    if s == [] then "" else Body(s[..|s| - 1]) + Entry(s[|s| - 1])
  }

  /** What mapdump leaves in its buffer. */
  function Dumped(s: seq<Map>, exec: bool, init: bool): string {
    var t := (if exec || init then PREFIX else "") + Body(s);
    if t == "" then ""
    else if !init then t[..|t| - 1]
    else if t == PREFIX then ""
    else t[..|t| - 1] + "\n"
  }

  /** mapdump on a table: mapget for every entry, then the end of the text is put right. */
  method Dump(t: Table, exec: bool, init: bool) returns (buf: string)
    requires t.Valid()
    ensures buf == Dumped(t.Live(), exec, init)
  {
    hide Ascends, Entry;
    buf := if exec || init then PREFIX else "";
    ghost var head, s := buf, t.Live();
    var i := 0;
    while i < t.size
      invariant 0 <= i <= t.size == |s| && buf == head + Body(s[..i])
    {
      var m := t.table[i];
      assert m == s[i];
      EntryText(m);
      buf := buf + m.key + " " + m.val + " ";
      assert s[..i + 1][..i] == s[..i];
      assert buf == head + Body(s[..i]) + Entry(m);
      i := i + 1;
    }
    assert s[..i] == s;
    if |buf| > 0 {
      if !init {
        buf := buf[..|buf| - 1];
      } else if |buf| == |PREFIX| {
        BodySize(s);
        buf := "";
      } else {
        buf := buf[..|buf| - 1] + "\n";
      }
    }
  }

  lemma EntryText(m: Map)
    ensures forall b: string :: b + m.key + " " + m.val + " " == b + Entry(m)
  {
  }

  lemma BodySize(s: seq<Map>)
    ensures s != [] ==> |Body(s)| > 0 && Body(s)[|Body(s)| - 1] == ' '
  {
  }

  /** How mappings are written, for two of them: the prefix for exec and init, and a newline for init. */
  lemma TwoMappings(m: Map, n: Map)
    ensures Dumped([m, n], false, false) == m.key + " " + m.val + " " + n.key + " " + n.val
    ensures Dumped([m, n], true, false) == "vpath " + m.key + " " + m.val + " " + n.key + " " + n.val
    ensures Dumped([m, n], true, true) == "vpath " + m.key + " " + m.val + " " + n.key + " " + n.val + "\n"
    ensures Dumped([m, n], false, true) == Dumped([m, n], true, true)
    ensures Dumped([], true, false) == "vpath" && Dumped([], false, false) == "" == Dumped([], true, true)
  {
    hide Entry;
    var words := m.key + " " + m.val + " " + n.key + " " + n.val;
    assert [m, n][..1] == [m] && [m][..0] == [];
    assert Body([m, n]) == Body([m]) + Entry(n) && Body([m]) == Body([]) + Entry(m) && Body([]) == "";
    EntryText(n);
    assert Body([m, n]) == words + " " by { WordsOf(m, n); }
    assert (words + " ")[..|words|] == words;
    var t := PREFIX + (words + " ");
    assert t[..|t| - 1] == PREFIX + words;
  }

  lemma WordsOf(m: Map, n: Map)
    ensures Entry(m) + Entry(n) == m.key + " " + m.val + " " + n.key + " " + n.val + " "
  {
    EntryText(m);
    EntryText(n);
  }

  // ------------------------------------------------------------------ reading

  /** The text up to the first space, or newline if that ends a word. */
  function Word(t: string, newline: bool): (w: string)
    ensures |w| <= |t| && w == t[..|w|]
    ensures ' ' !in w && (newline ==> '\n' !in w)
    ensures |w| < |t| ==> t[|w|] == ' ' || (newline && t[|w|] == '\n')
  {
    if t == "" || t[0] == ' ' || (newline && t[0] == '\n') then "" else [t[0]] + Word(t[1..], newline)
  }

  /** The text behind a word and the character that ended it. */
  function Behind(t: string, w: string): (r: string)
    requires |w| <= |t|
    ensures |r| <= |t| && (t != "" ==> |r| < |t|)
  {
    if |w| == |t| then "" else t[|w| + 1..]
  }

  /** The pairs of words of a text. */
  function Pairs(t: string): seq<Map>
    decreases |t|
  {
    if t == "" then []
    else
      var from := Word(t, false);
      var rest := Behind(t, from);
      var to := Word(rest, true);
      [Map(from, to)] + Pairs(Behind(rest, to))
  }

  function Stripped(t: string): string {
    if |t| >= |PREFIX| && t[..|PREFIX|] == PREFIX then t[|PREFIX|..] else t
  }

  /** What mapset can take during initialization: a from that is not empty and not a dash, and
      a to that is no special command, and that is not empty unless the text ends there. */
  predicate Plain(m: Map) {
    m.key != "" && m.key != "-" && !(|m.val| >= 2 && m.val[..2] == "/#")
  }

  ghost predicate AllPlain(ps: seq<Map>) {
    && (forall i :: 0 <= i < |ps| ==> Plain(ps[i]))
    && forall i :: 0 <= i < |ps| - 1 ==> ps[i].val != ""
  }

  /** A lone dash stands for an empty word. */
  function Meant(w: string): string {
    if w == "-" then "" else w
  }

  /** The map that a list of mappings makes, the first mapping of a key being kept. */
  function Loaded(ps: seq<Map>): map<string, string> {
    if ps == [] then map[]
    else
      var mp, m := Loaded(ps[..|ps| - 1]), ps[|ps| - 1];
      if m.key in mp then mp else mp[m.key := Meant(m.val)]
  }

  /** The i-th mapping is the first with its key. */
  ghost predicate FirstOf(ps: seq<Map>, i: nat) {
    i < |ps| && forall j :: 0 <= j < i ==> ps[j].key != ps[i].key
  }

  /** Every key is loaded, with its first value, of which a dash means none. */
  lemma {:induction false} LoadedIs(ps: seq<Map>, i: nat)
    requires FirstOf(ps, i)
    ensures ps[i].key in Loaded(ps) && Loaded(ps)[ps[i].key] == if ps[i].val == "-" then "" else ps[i].val
    decreases |ps|
  {
    var n := |ps| - 1;
    if i < n {
      assert FirstOf(ps[..n], i);
      LoadedIs(ps[..n], i);
    } else if ps[n].key in Loaded(ps[..n]) {
      var j := LoadedFrom(ps[..n], ps[n].key);
    }
  }

  /** No other key is. */
  lemma {:induction false} LoadedFrom(ps: seq<Map>, key: string) returns (i: nat)
    requires key in Loaded(ps)
    ensures FirstOf(ps, i) && ps[i].key == key
    decreases |ps|
  {
    var n := |ps| - 1;
    if key in Loaded(ps[..n]) {
      i := LoadedFrom(ps[..n], key);
    } else {
      i := n;
      if j :| 0 <= j < n && ps[j].key == key {
        AllLoaded(ps[..n], j);
      }
    }
  }

  lemma {:induction false} AllLoaded(ps: seq<Map>, i: nat)
    requires i < |ps|
    ensures ps[i].key in Loaded(ps)
    decreases |ps|
  {
    var n := |ps| - 1;
    if i < n {
      AllLoaded(ps[..n], i);
    }
  }

  lemma {:induction false} LoadedSize(ps: seq<Map>)
    ensures |Loaded(ps)| <= |ps|
  {
    if ps != [] {
      LoadedSize(ps[..|ps| - 1]);
    }
  }

  /** mapset while the tables are initialized. */
  method Set(t: Table, from: string, to0: string, ghost mp: map<string, string>) returns (ok: bool)
    requires t.Valid() && Maps(t.Live(), mp) && Plain(Map(from, to0)) && |mp| < TABSIZE
    modifies t, t.table
    ensures ok && t.Valid() && Maps(t.Live(), if from in mp then mp else mp[from := if to0 == "-" then "" else to0])
  {
    var to := if to0 == "-" then "" else to0;
    ghost var s := t.Live();
    var r := t.Search(from, Store(to));
    ServesMap(Store(to), from, s, t.Live(), r, mp);
    MapsSize(s, mp);
    ok := r >= 0;
  }

  lemma {:induction false} MapsSize(s: seq<Map>, mp: map<string, string>)
    requires Ascends(s) && Maps(s, mp)
    ensures |s| == |mp|
    decreases |s|
  {
    hide Less;
    if s == [] {
      assert mp.Keys == {};
    } else {
      var n := |s| - 1;
      assert s[..n] + s[n + 1..] == s[..n];
      DropMaps(s, n, mp);
      MapsSize(s[..n], mp - {s[n].key});
      assert mp == (mp - {s[n].key})[s[n].key := mp[s[n].key]];
    }
  }

  lemma NothingLoaded(s: seq<Map>)
    ensures s == [] ==> Maps(s, map[])
  {
  }

  /** mapinit on a text that must not be changed. */
  method Load(t: Table, buf: string) returns (ok: bool)
    requires t.Valid() && t.Live() == [] && AllPlain(Pairs(Stripped(buf))) && |Pairs(Stripped(buf))| <= TABSIZE
    requires var ps := Pairs(Stripped(buf)); ps != [] && ps[|ps| - 1].val == "" ==> buf != "" && buf[|buf| - 1] != '\n'
    modifies t, t.table
    ensures ok && t.Valid() && Maps(t.Live(), Loaded(Pairs(Stripped(buf))))
  {
    hide Maps, Ascends, Word, Behind, Stripped, Pairs, Loaded, AllPlain, Plain;
    NothingLoaded(t.Live());
    ghost var ps := Pairs(Stripped(buf));
    NonePaired(ps);
    var bp := Stripped(buf);
    ghost var n := 0;
    ok := true;
    while bp != ""
      invariant t.Valid() && n <= |ps| && Pairs(bp) == ps[n..] && ok
      invariant Maps(t.Live(), Loaded(ps[..n]))
      decreases |bp|
    {
      NextPair(ps, n, bp);
      var from := Word(bp, false);
      bp := Behind(bp, from);
      var to := Word(bp, true);
      bp := Behind(bp, to);
      ok := Set(t, from, to, Loaded(ps[..n]));
      n := n + 1;
    }
    NonePaired(ps[n..]);
    assert ps[..n] == ps;
  }

  lemma NonePaired(ps: seq<Map>)
    ensures Loaded(ps[..0]) == map[] && Pairs("") == []
  {
  }

  /** What the next two words of the text add. */
  lemma NextPair(ps: seq<Map>, n: nat, bp: string)
    requires n <= |ps| <= TABSIZE && Pairs(bp) == ps[n..] && bp != "" && AllPlain(ps)
    ensures var from := Word(bp, false);
      var rest := Behind(bp, from);
      var to := Word(rest, true);
      && n < |ps| && ps[n] == Map(from, to) && Plain(ps[n]) && |Behind(rest, to)| < |bp|
      && Pairs(Behind(rest, to)) == ps[n + 1..] && |Loaded(ps[..n])| < TABSIZE
      && Loaded(ps[..n + 1]) == if from in Loaded(ps[..n]) then Loaded(ps[..n]) else Loaded(ps[..n])[from := Meant(to)]
  {
    hide Word, Behind, Meant, Plain;
    assert ps[n..][0] == ps[n];
    assert ps[..n + 1][..n] == ps[..n];
    LoadedSize(ps[..n]);
  }

  // ---------------------------------------------------------------- round trips

  /** A word that is read back as it was written. */
  predicate IsWord(w: string) {
    w != "" && w != "-" && ' ' !in w && '\n' !in w
  }

  /** A mapping that can be written and read back. */
  predicate Writable(m: Map) {
    IsWord(m.key) && IsWord(m.val) && !(|m.val| >= 2 && m.val[..2] == "/#")
  }

  ghost predicate AllWritable(s: seq<Map>) {
    forall i :: 0 <= i < |s| ==> Writable(s[i])
  }

  /** The text of some mappings without the last space, but with e at the end. */
  function Ended(s: seq<Map>, e: string): string
    requires s != []
  {
    BodySize(s);
    Body(s)[..|Body(s)| - 1] + e
  }

  lemma {:induction false} WordIs(w: string, rest: string, newline: bool)
    requires ' ' !in w && '\n' !in w && (rest == "" || rest[0] == ' ' || (newline && rest[0] == '\n'))
    ensures Word(w + rest, newline) == w
  {
    if w == "" {
      assert w + rest == rest;
    } else {
      assert (w + rest)[1..] == w[1..] + rest;
      WordIs(w[1..], rest, newline);
    }
  }

  /** A pair of words is read off the front of a text. */
  lemma PairFirst(a: string, b: string, e: string, more: string)
    requires ' ' !in a && '\n' !in a && ' ' !in b && '\n' !in b && a != ""
    requires e == " " || e == "\n" || (more == "" && e == "")
    ensures Pairs(a + " " + b + e + more) == [Map(a, b)] + Pairs(more)
  {
    var t := a + " " + b + e + more;
    assert t == a + (" " + b + e + more);
    WordIs(a, " " + b + e + more, false);
    assert Behind(t, a) == b + (e + more);
    WordIs(b, e + more, true);
    assert Behind(b + (e + more), b) == more;
  }

  lemma {:induction false} BodyFirst(m: Map, s: seq<Map>)
    ensures Body([m] + s) == Entry(m) + Body(s)
    decreases |s|
  {
    hide Entry;
    if s == [] {
      assert [m] + s == [m] && [m][..0] == [];
      assert Body([m]) == Body([]) + Entry(m);
    } else {
      var n := |s| - 1;
      assert ([m] + s)[..|s|] == [m] + s[..n] && ([m] + s)[|s|] == s[n];
      BodyFirst(m, s[..n]);
      assert (Entry(m) + Body(s[..n])) + Entry(s[n]) == Entry(m) + (Body(s[..n]) + Entry(s[n]));
    }
  }

  /** What was written is read back. */
  lemma {:induction false} ReadsBack(s: seq<Map>, e: string)
    requires s != [] && AllWritable(s) && (e == "" || e == "\n")
    ensures Pairs(Ended(s, e)) == s
    decreases |s|
  {
    hide Pairs, Ended;
    var m, more := s[0], s[1..];
    assert s == [m] + more;
    EndedAfter(m, more, e);
    if more == [] {
      PairFirst(m.key, m.val, e, "");
      NoPairs();
    } else {
      PairFirst(m.key, m.val, " ", Ended(more, e));
      ReadsBack(more, e);
    }
  }

  lemma EndedAfter(m: Map, more: seq<Map>, e: string)
    ensures more == [] ==> Ended([m] + more, e) == m.key + " " + m.val + e + ""
    ensures more != [] ==> Ended([m] + more, e) == m.key + " " + m.val + " " + Ended(more, e)
  {
    hide Pairs;
    BodyFirst(m, more);
    var a := m.key + " " + m.val;
    assert Entry(m) == a + " ";
    if more == [] {
      assert Ended([m] + more, e) == m.key + " " + m.val + e + "";
    } else {
      BodySize(more);
      assert Ended([m] + more, e) == m.key + " " + m.val + " " + Ended(more, e);
    }
  }

  lemma NoPairs()
    ensures Pairs("") == []
  {
  }

  /** The two cases in which a table does not survive: an empty one that is written for exec
      leaves the prefix without its space, and a first key that is the prefix is taken for it
      when there is none. */
  predicate Survives(s: seq<Map>, exec: bool, init: bool) {
    if s == [] then !exec || init else exec || init || s[0].key != "vpath"
  }

  /** The writing and reading back of a table that survives. */
  lemma RoundTrip(s: seq<Map>, exec: bool, init: bool)
    requires AllWritable(s) && Survives(s, exec, init)
    ensures Pairs(Stripped(Dumped(s, exec, init))) == s
  {
    hide Pairs, Body;
    if s == [] {
      EmptyBody();
      NoPairs();
    } else {
      BodySize(s);
      var e := if init then "\n" else "";
      var u := Ended(s, e);
      if exec || init {
        assert Dumped(s, exec, init) == PREFIX + u;
        assert (PREFIX + u)[..|PREFIX|] == PREFIX;
        assert (PREFIX + u)[|PREFIX|..] == u;
      } else {
        assert Dumped(s, exec, init) == u;
        FirstWord(s, u);
      }
      ReadsBack(s, e);
    }
  }

  lemma EmptyBody()
    ensures Body([]) == ""
  {
  }

  predicate HasPrefix(t: string) {
    |t| >= |PREFIX| && t[..|PREFIX|] == PREFIX
  }

  /** A word and behind it the text of some mappings. */
  function Tailed(v: string, s: seq<Map>): string {
    if s == [] then v else v + " " + Ended(s, "")
  }

  /** The text of a table starts with its first key and a space. */
  lemma FirstWord(s: seq<Map>, u: string)
    requires s != [] && AllWritable(s) && u == Ended(s, "")
    ensures Word(u, false) == s[0].key && |u| > |s[0].key| && u[|s[0].key|] == ' '
    ensures HasPrefix(u) <==> s[0].key == "vpath"
    ensures u[|s[0].key| + 1..] == Tailed(s[0].val, s[1..])
  {
    hide Word, Body, Ended, Tailed, HasPrefix, AllWritable;
    var k, tail := s[0].key, Tailed(s[0].val, s[1..]);
    EndedFirst(s);
    KeyFirst(s, k, tail, u);
    PrefixWord(u);
    if k == "vpath" {
      PrefixThere(u, tail);
    }
  }

  lemma KeyFirst(s: seq<Map>, k: string, tail: string, u: string)
    requires s != [] && AllWritable(s) && k == s[0].key && u == k + " " + tail
    ensures Word(u, false) == k && |u| > |k| && u[|k|] == ' ' && u[|k| + 1..] == tail && u == k + (" " + tail)
  {
    hide Word;
    assert u == k + (" " + tail);
    WordIs(k, " " + tail, false);
  }

  lemma PrefixThere(u: string, tail: string)
    requires u == "vpath" + (" " + tail)
    ensures HasPrefix(u)
  {
    assert u[..6] == PREFIX;
  }

  /** The text of a table, from its first mapping on. */
  lemma EndedFirst(s: seq<Map>)
    requires s != []
    ensures Ended(s, "") == s[0].key + " " + Tailed(s[0].val, s[1..])
  {
    hide Body;
    var k, v, more := s[0].key, s[0].val, s[1..];
    assert s == [s[0]] + more;
    BodyFirst(s[0], more);
    BodySize(more);
    EmptyBody();
    assert Body(s) == k + " " + v + " " + Body(more);
    if more == [] {
      assert Body(s) == k + " " + v + " ";
      assert Ended(s, "") == k + " " + v;
    } else {
      assert Body(s)[..|Body(s)| - 1] == k + " " + v + " " + Body(more)[..|Body(more)| - 1];
      assert Ended(s, "") == k + " " + (v + " " + Ended(more, ""));
    }
  }

  lemma PrefixWord(u: string)
    ensures HasPrefix(u) ==> Word(u, false) == "vpath"
  {
    if HasPrefix(u) {
      var rest := " " + u[6..];
      assert u == "vpath" + rest;
      WordIs("vpath", rest, false);
    }
  }

  /** A table whose first key is taken for the prefix: values are read as keys, and the last
      of them is left without a value. */
  lemma {:induction false} ReadsShifted(v: string, s: seq<Map>)
    requires AllWritable(s) && IsWord(v)
    ensures var ps := Pairs(Tailed(v, s)); |ps| == |s| + 1 && ps[|s|].val == ""
    decreases |s|
  {
    hide Pairs, Body, Ended;
    if s == [] {
      LoneWord(v);
    } else {
      hide Tailed, IsWord;
      var k, more := s[0].key, Tailed(s[0].val, s[1..]);
      TailedFirst(v, s);
      PairFirst(v, k, " ", more);
      ReadsShifted(s[0].val, s[1..]);
    }
  }

  lemma TailedFirst(v: string, s: seq<Map>)
    requires s != []
    ensures Tailed(v, s) == v + " " + s[0].key + " " + Tailed(s[0].val, s[1..])
  {
    hide Ended;
    var k, more := s[0].key, Tailed(s[0].val, s[1..]);
    EndedFirst(s);
    assert v + " " + (k + " " + more) == v + " " + k + " " + more;
  }

  lemma LoneWord(v: string)
    requires IsWord(v)
    ensures Pairs(v) == [Map(v, "")]
  {
    assert v + "" == v;
    WordIs(v, "", false);
  }

  lemma {:induction false} LoadedValues(s: seq<Map>)
    requires AllWritable(s)
    ensures forall k :: k in Loaded(s) ==> Loaded(s)[k] != ""
    decreases |s|
  {
    if s != [] {
      LoadedValues(s[..|s| - 1]);
    }
  }

  /** The entries of an ascending table are those of the map they make. */
  lemma {:induction false} LoadedMaps(s: seq<Map>)
    requires Ascends(s) && AllWritable(s)
    ensures Maps(s, Loaded(s))
    decreases |s|
  {
    hide Less, Maps, Ascends, AllWritable;
    if s != [] {
      var n := |s| - 1;
      ButLast(s);
      LoadedMaps(s[..n]);
      NewKey(s, n);
      AddMaps(s[..n], n, s[n], Loaded(s[..n]));
      assert s[..n][..n] + [s[n]] + s[..n][n..] == s;
    } else {
      NothingLoaded(s);
    }
  }

  lemma ButLast(s: seq<Map>)
    requires s != [] && Ascends(s) && AllWritable(s)
    ensures Ascends(s[..|s| - 1]) && AllWritable(s[..|s| - 1]) && Writable(s[|s| - 1])
  {
    hide Less, Writable;
  }

  lemma NewKey(s: seq<Map>, n: nat)
    requires Ascends(s) && n < |s| && Maps(s[..n], Loaded(s[..n]))
    ensures s[n].key !in Loaded(s[..n])
  {
    if s[n].key in Loaded(s[..n]) {
      var i :| At(s[..n], s[n].key, i);
      CompareOrder(s[i].key, s[n].key);
    }
  }

  /** Ascending tables with the same map are the same. */
  lemma {:induction false} SameTable(s: seq<Map>, s': seq<Map>, mp: map<string, string>)
    requires Ascends(s) && Ascends(s') && Maps(s, mp) && Maps(s', mp)
    ensures s == s'
    decreases |s|
  {
    hide Less, Maps;
    MapsSize(s, mp);
    MapsSize(s', mp);
    if s != [] {
      var n := |s| - 1;
      LastKey(s, s', mp);
      LastKey(s', s, mp);
      KeysSame(s[n].key, s'[n].key);
      assert s[..n] + s[n + 1..] == s[..n] && s'[..n] + s'[n + 1..] == s'[..n];
      DropMaps(s, n, mp);
      DropMaps(s', n, mp);
      AscendsFront(s, n);
      AscendsFront(s', n);
      SameValue(s, s', n, mp);
      hide Ascends;
      SameTable(s[..n], s'[..n], mp - {s[n].key});
      assert s == s[..n] + [s[n]] && s' == s'[..n] + [s'[n]];
    }
  }

  lemma AscendsFront(s: seq<Map>, n: nat)
    requires Ascends(s) && n <= |s|
    ensures Ascends(s[..n])
  {
    hide Less;
  }

  lemma SameValue(s: seq<Map>, s': seq<Map>, n: nat, mp: map<string, string>)
    requires Maps(s, mp) && Maps(s', mp) && n < |s| && n < |s'| && s[n].key == s'[n].key
    ensures s[n] == s'[n]
  {
  }

  /** The last key of one is not above the last key of the other. */
  lemma LastKey(s: seq<Map>, s': seq<Map>, mp: map<string, string>)
    requires Ascends(s) && Ascends(s') && Maps(s, mp) && Maps(s', mp) && |s| == |s'| > 0
    ensures !Less(s'[|s'| - 1].key, s[|s| - 1].key)
  {
    hide Less;
    var key := s[|s| - 1].key;
    var i :| At(s', key, i);
    NotLess(key);
    if i < |s'| - 1 {
      LessFacts(key, s'[|s'| - 1].key);
    }
  }

  lemma KeysSame(a: string, b: string)
    requires !Less(a, b) && !Less(b, a)
    ensures a == b
  {
    CompareOrder(a, b);
  }

  /** Reading back what was written gives the same table exactly if the table survives. */
  lemma RoundTripIff(s: seq<Map>, exec: bool, init: bool)
    requires Ascends(s) && AllWritable(s)
    ensures Loaded(Pairs(Stripped(Dumped(s, exec, init)))) == Loaded(s) <==> Survives(s, exec, init)
  {
    hide Pairs, Body, Ended, Loaded, Stripped, Ascends;
    if Survives(s, exec, init) {
      RoundTrip(s, exec, init);
    } else if s == [] {
      EmptyBody();
      assert Dumped(s, exec, init) == "vpath";
      LoneWord("vpath");
      BogusEntry();
    } else {
      var u := Ended(s, "");
      DumpedPlain(s);
      FirstWord(s, u);
      StrippedPrefix(u);
      ReadsShifted(s[0].val, s[1..]);
      LostLast(s, Pairs(Stripped(u)));
    }
  }

  lemma DumpedPlain(s: seq<Map>)
    requires s != []
    ensures Dumped(s, false, false) == Ended(s, "")
  {
    hide Body;
    BodySize(s);
    assert "" + Body(s) == Body(s);
  }

  lemma StrippedPrefix(u: string)
    requires HasPrefix(u)
    ensures Stripped(u) == u[|PREFIX|..]
  {
  }

  /** The prefix without its space is read as a key without a value. */
  lemma BogusEntry()
    ensures Stripped("vpath") == "vpath" && Loaded([Map("vpath", "")]) != Loaded([])
  {
    assert [Map("vpath", "")][..0] == [];
    assert "vpath" in Loaded([Map("vpath", "")]);
  }

  lemma LostLast(s: seq<Map>, ps: seq<Map>)
    requires Ascends(s) && AllWritable(s) && |ps| == |s| > 0 && ps[|ps| - 1].val == ""
    ensures Loaded(ps) != Loaded(s)
  {
    hide Less, Ascends, Maps, AllWritable;
    LoadedMaps(s);
    MapsSize(s, Loaded(s));
    LoadedValues(s);
    var n := |ps| - 1;
    LoadedSize(ps[..n]);
    if ps[n].key !in Loaded(ps[..n]) {
      assert Loaded(ps)[ps[n].key] == "";
    }
  }

  /** mapdump and then mapinit into an empty table: the same table. */
  method WriteAndRead(t: Table, u: Table, exec: bool, init: bool) returns (ok: bool)
    requires t.Valid() && u.Valid() && u.Live() == [] && t != u && t.table != u.table
    requires AllWritable(t.Live()) && Survives(t.Live(), exec, init)
    modifies u, u.table
    ensures ok && u.Valid() && u.Live() == old(t.Live())
  {
    hide Ascends, Maps, Pairs, Stripped, Dumped;
    ghost var s := t.Live();
    var buf := Dump(t, exec, init);
    RoundTrip(s, exec, init);
    WritablePlain(s);
    ok := Load(u, buf);
    LoadedMaps(s);
    SameTable(s, u.Live(), Loaded(s));
  }

  lemma WritablePlain(s: seq<Map>)
    requires AllWritable(s)
    ensures AllPlain(s) && (s != [] ==> s[|s| - 1].val != "")
  {
  }
}
