/** URL parameters: the parser of `ApiHandler`, with the string operations it relies on, and the printer it undoes. */
module UrlParams {
  // ---------- std::string ----------

  const SIZE_T := 0x1_0000_0000_0000_0000
  const NPOS := SIZE_T - 1

  /** `pos + 1` on `size_t`: 0 for `npos`. */
  function Succ(pos: nat): (r: nat)
    requires pos <= NPOS
    ensures r == if pos == NPOS then 0 else pos + 1
  {
    (pos + 1) % SIZE_T
  }

  /** A string is shorter than `npos`. */
  predicate Fits(s: string) {
    |s| < NPOS
  }

  /** Position of the first `c`, or `npos`. */
  function Find(s: string, c: char): (r: nat)
    requires Fits(s)
    ensures if c in s then r < |s| && s[r] == c && c !in s[..r] else r == NPOS
  {
    if s == [] then NPOS
    else if s[0] == c then 0
    else
      var r := Find(s[1..], c);
      assert r != NPOS ==> s[..r + 1] == [s[0]] + s[1..][..r];
      if r == NPOS then NPOS else r + 1
  }

  /** The first `c` of a text that is known up to there. */
  lemma FindAt(s: string, head: string, c: char, tail: string)
    requires Fits(s) && s == head + [c] + tail && c !in head
    ensures Find(s, c) == |head| && s[..|head|] == head && s[|head| + 1..] == tail
  {
    var r := Find(s, c);
    assert s[|head|] == c;
    assert forall i :: 0 <= i < |head| ==> s[i] == head[i];
    assert forall i :: 0 <= i < r ==> s[..r][i] != c;
  }

  function Least(m: nat, n: nat): nat {
    if m < n then m else n
  }

  /** `substr(pos, count)`; a position beyond the end throws. */
  function Substr(s: string, pos: nat, count: nat): string
    requires pos <= |s|
  {
    s[pos..Least(pos + count, |s|)]
  }

  /** `erase(0, count)`. */
  function EraseFront(s: string, count: nat): string {
    s[Least(count, |s|)..]
  }

  // ---------- parser ----------

  /** `ParseUrlPair`. */
  function ParseUrlPair(pair: string): (string, string)
    requires Fits(pair)
  {
    (Substr(pair, 0, Find(pair, '=')), Substr(pair, Succ(Find(pair, '=')), NPOS))
  }

  /** Key and value are separated by the first equality sign; without one the pair is both. */
  lemma PairMeans(pair: string, key: string, value: string)
    requires Fits(pair) && '=' !in key
    ensures pair == key + "=" + value ==> ParseUrlPair(pair) == (key, value)
    ensures '=' !in pair ==> ParseUrlPair(pair) == (pair, pair)
  {
    if pair == key + "=" + value {
      FindAt(pair, key, '=', value);
    }
    assert pair[0..|pair|] == pair;
  }

  /** `map::insert` keeps the value a key already has. */
  function Insert(m: map<string, string>, p: (string, string)): map<string, string> {
    if p.0 in m then m else m[p.0 := p.1]
  }

  function InsertAll(m: map<string, string>, pieces: seq<string>): map<string, string>
    requires forall s :: s in pieces ==> Fits(s)
    decreases |pieces|
  {
    if pieces == [] then m else InsertAll(Insert(m, ParseUrlPair(pieces[0])), pieces[1..])
  }

  /** A key is found exactly if it was there or some piece has it; the first such piece gives the value. */
  lemma {:induction false} FirstCounts(m: map<string, string>, pieces: seq<string>, key: string)
    requires forall s :: s in pieces ==> Fits(s)
    ensures var r := InsertAll(m, pieces);
      && (key in r <==> key in m || exists i :: 0 <= i < |pieces| && ParseUrlPair(pieces[i]).0 == key)
      && (key in m ==> r[key] == m[key])
      && (key in r && key !in m ==>
            exists i :: 0 <= i < |pieces| && ParseUrlPair(pieces[i]) == (key, r[key]) &&
                        forall j :: 0 <= j < i ==> ParseUrlPair(pieces[j]).0 != key)
    decreases |pieces|
  {
    if pieces == [] {
    } else {
      var n, rest, r := Insert(m, ParseUrlPair(pieces[0])), pieces[1..], InsertAll(m, pieces);
      FirstCounts(n, rest, key);
      if key in n {
        assert key !in m ==> ParseUrlPair(pieces[0]) == (key, r[key]);
      } else if key in r {
        var i :| 0 <= i < |rest| && ParseUrlPair(rest[i]) == (key, r[key]) &&
                 forall j :: 0 <= j < i ==> ParseUrlPair(rest[j]).0 != key;
        assert ParseUrlPair(pieces[i + 1]) == (key, r[key]);
        forall j | 0 <= j < i + 1 ensures ParseUrlPair(pieces[j]).0 != key {
          assert j > 0 ==> ParseUrlPair(rest[j - 1]).0 != key;
        }
      } else {
        forall i | 0 <= i < |pieces| ensures ParseUrlPair(pieces[i]).0 != key {
          assert i > 0 ==> ParseUrlPair(rest[i - 1]).0 != key;
        }
      }
    }
  }

  /** The pieces between occurrences of `c`. */
  function Split(s: string, c: char): (r: seq<string>)
    requires Fits(s)
    ensures r != [] && forall p :: p in r ==> Fits(p) && c !in p
  {
    if c !in s then [s] else [s[..Find(s, c)]] + Split(s[Find(s, c) + 1..], c)
  }

  /** The parameters of a target as a simple form: the text behind the first question mark is split at every
      ampersand, and of equal keys the first one counts. */
  function Parameters(target: string): map<string, string>
    requires Fits(target)
  {
    if '?' !in target then map[]
    else InsertAll(map[], Split(target[Find(target, '?') + 1..], '&'))
  }

  lemma SplitHead(params: string, pair: string, rest: string)
    requires Fits(params)
    requires var pos := Find(params, '&'); pair == Substr(params, 0, pos) && rest == EraseFront(params, Succ(pos))
    ensures if '&' in params then |rest| < |params| && Split(params, '&') == [pair] + Split(rest, '&')
            else rest == params == pair && Split(params, '&') == [pair]
  {
    var pos := Find(params, '&');
    if '&' in params {
      assert pair == params[..pos] && rest == params[pos + 1..];
    } else {
      assert pair == params;
    }
  }

  lemma InsertHead(m: map<string, string>, head: string, tail: seq<string>)
    requires Fits(head) && forall s :: s in tail ==> Fits(s)
    ensures InsertAll(m, [head] + tail) == InsertAll(Insert(m, ParseUrlPair(head)), tail)
  {
    assert ([head] + tail)[0] == head && ([head] + tail)[1..] == tail;
  }

  lemma InsertOne(m: map<string, string>, piece: string)
    requires Fits(piece)
    ensures InsertAll(m, [piece]) == Insert(m, ParseUrlPair(piece))
  {
    assert [piece] == [piece] + [];
    InsertHead(m, piece, []);
  }

  /** One turn of the parser's loop: the piece before the first ampersand is inserted and erased,
      or, without an ampersand, inserted and kept. */
  lemma Turn(m: map<string, string>, params: string, pair: string, rest: string)
    requires Fits(params)
    requires var pos := Find(params, '&'); pair == Substr(params, 0, pos) && rest == EraseFront(params, Succ(pos))
    ensures if '&' in params then |rest| < |params| else rest == params
    ensures InsertAll(Insert(m, ParseUrlPair(pair)), Split(rest, '&')) == InsertAll(m, Split(params, '&'))
  {
    SplitHead(params, pair, rest);
    if '&' in params {
      InsertHead(m, pair, Split(rest, '&'));
    } else {
      InsertOne(m, pair);
      InsertOne(Insert(m, ParseUrlPair(pair)), pair);
    }
  }

  /** `ParseUrlParameters`, for every target. Without an ampersand the loop inserts the only pair, erases nothing,
      as `npos + 1` is 0, and the pair is inserted again. */
  method ParseUrlParameters(target: string) returns (res: map<string, string>)
    requires Fits(target)
    ensures res == Parameters(target)
  {
    res := map[];
    var pos := Find(target, '?');
    if pos == NPOS {
      return;
    }
    var params := Substr(target, Succ(pos), NPOS);
    assert params == target[pos + 1..];
    pos := Find(params, '&');
    var again := true;
    while again
      invariant Fits(params) && pos == Find(params, '&')
      invariant InsertAll(res, Split(params, '&')) == Parameters(target)
      invariant !again ==> '&' !in params
      decreases |params| + if again then 1 else 0
    {
      var pair := Substr(params, 0, pos);
      var rest := EraseFront(params, Succ(pos));
      Turn(res, params, pair, rest);
      params := rest;
      res := Insert(res, ParseUrlPair(pair));
      pos := Find(params, '&');
      again := pos != NPOS;
    }
    InsertOne(res, params);
    res := Insert(res, ParseUrlPair(params));
  }

  // ---------- printer ----------

  function Pair(key: string, value: string): string {
    key + "=" + value
  }

  function Join(pieces: seq<string>): string {
    if pieces == [] then "" else if |pieces| == 1 then pieces[0] else pieces[0] + "&" + Join(pieces[1..])
  }

  /** `keys` lists the keys of `params`, each once, in the order of the map. */
  ghost predicate Lists(keys: seq<string>, params: map<string, string>) {
    && (forall i, j :: 0 <= i < j < |keys| ==> keys[i] != keys[j])
    && (forall k :: k in keys <==> k in params)
  }

  function Pieces(keys: seq<string>, params: map<string, string>): (r: seq<string>)
    requires forall k :: k in keys ==> k in params
    ensures |r| == |keys| && forall i :: 0 <= i < |keys| ==> r[i] == Pair(keys[i], params[keys[i]])
  {
    seq(|keys|, i requires 0 <= i < |keys| => Pair(keys[i], params[keys[i]]))
  }

  function Printed(url: string, keys: seq<string>, params: map<string, string>): string
    requires forall k :: k in keys ==> k in params
  {
    if keys == [] then url else url + "?" + Join(Pieces(keys, params))
  }

  /** What is printed after `i` pairs. */
  function Line(url: string, keys: seq<string>, params: map<string, string>, i: nat): string
    requires i <= |keys| && forall k :: k in keys ==> k in params
  {
    url + "?" + Join(Pieces(keys[..i], params))
  }

  lemma {:induction false} JoinSnoc(pieces: seq<string>, last: string)
    ensures Join(pieces + [last]) == if pieces == [] then last else Join(pieces) + "&" + last
  {
    if pieces == [] {
    } else {
      JoinSnoc(pieces[1..], last);
      assert (pieces + [last])[1..] == pieces[1..] + [last];
    }
  }

  lemma LineGrows(url: string, keys: seq<string>, params: map<string, string>, i: nat)
    requires i < |keys| && forall k :: k in keys ==> k in params
    ensures Line(url, keys, params, i + 1) ==
            (if i == 0 then Line(url, keys, params, i) else Line(url, keys, params, i) + "&") +
            keys[i] + "=" + params[keys[i]]
  {
    var before, last := Pieces(keys[..i], params), Pair(keys[i], params[keys[i]]);
    assert Pieces(keys[..i + 1], params) == before + [last];
    JoinSnoc(before, last);
  }

  /** `SetUrlParameters`. */
  method SetUrlParameters(url: string, keys: seq<string>, params: map<string, string>) returns (s: string)
    requires Lists(keys, params)
    ensures s == Printed(url, keys, params)
  {
    if |keys| == 0 {
      return url;
    }
    s := url + "?";
    var i := 0;
    while i < |keys|
      invariant 0 <= i <= |keys|
      invariant s == Line(url, keys, params, i)
    {
      LineGrows(url, keys, params, i);
      if i != 0 {
        s := s + "&";
      }
      s := s + keys[i] + "=" + params[keys[i]];
      i := i + 1;
    }
    assert keys[..i] == keys;
  }

  // ---------- round trip ----------

  /** Splitting undoes joining. */
  lemma {:induction false} SplitJoined(pieces: seq<string>)
    requires pieces != [] && Fits(Join(pieces)) && forall p :: p in pieces ==> '&' !in p
    ensures Split(Join(pieces), '&') == pieces
  {
    if |pieces| == 1 {
    } else {
      var s, first, rest := Join(pieces), pieces[0], pieces[1..];
      FindAt(s, first, '&', Join(rest));
      SplitJoined(rest);
      assert pieces == [first] + rest;
      assert s[|first|] == '&';
    }
  }

  /** The part of `params` with these keys. */
  function Part(keys: seq<string>, params: map<string, string>): map<string, string> {
    map k | k in keys && k in params :: params[k]
  }

  /** Inserting the pair of the next key. */
  lemma InsertNext(keys: seq<string>, params: map<string, string>, i: nat)
    requires Lists(keys, params) && i < |keys|
    ensures Insert(Part(keys[..i], params), (keys[i], params[keys[i]])) == Part(keys[..i + 1], params)
  {
    assert keys[..i + 1] == keys[..i] + [keys[i]];
  }

  /** Inserting the remaining pairs completes the map. */
  lemma {:induction false} InsertListed(keys: seq<string>, params: map<string, string>, pieces: seq<string>, i: nat)
    requires Lists(keys, params) && i <= |keys| && forall k :: k in keys ==> '=' !in k
    requires pieces == Pieces(keys, params)[i..] && forall p :: p in pieces ==> Fits(p)
    ensures InsertAll(Part(keys[..i], params), pieces) == params
    decreases |keys| - i
  {
    if i == |keys| {
      assert keys[..i] == keys;
      assert Part(keys, params) == params;
    } else {
      PairMeans(pieces[0], keys[i], params[keys[i]]);
      InsertNext(keys, params, i);
      InsertListed(keys, params, pieces[1..], i + 1);
    }
  }

  lemma {:induction false} JoinFits(pieces: seq<string>, n: nat)
    requires |Join(pieces)| <= n
    ensures forall p :: p in pieces ==> |p| <= n
  {
    if |pieces| <= 1 {
    } else {
      JoinFits(pieces[1..], n);
    }
  }

  lemma ParsesBehind(url: string, text: string)
    requires '?' !in url && Fits(url + "?" + text)
    ensures Parameters(url + "?" + text) == InsertAll(map[], Split(text, '&'))
  {
    var target := url + "?" + text;
    FindAt(target, url, '?', text);
    assert target[|url|] == '?';
  }

  lemma PiecesClean(keys: seq<string>, params: map<string, string>)
    requires forall k :: k in keys ==> k in params && '&' !in k && '&' !in params[k]
    ensures forall p :: p in Pieces(keys, params) ==> '&' !in p
  {
    var pieces := Pieces(keys, params);
    forall i | 0 <= i < |pieces| ensures '&' !in pieces[i] {
      assert keys[i] in keys;
    }
  }

  /** Parsing what the printer makes of a map gives the map back: for every url without a question mark, every map whose
      keys hold neither an ampersand nor an equality sign and whose values hold no ampersand, and every key order. */
  lemma RoundTrip(url: string, keys: seq<string>, params: map<string, string>)
    requires Lists(keys, params) && Fits(Printed(url, keys, params))
    requires '?' !in url
    requires forall k :: k in params ==> '&' !in k && '=' !in k && '&' !in params[k]
    ensures Parameters(Printed(url, keys, params)) == params
  {
    if keys == [] {
      assert params == map[];
    } else {
      var pieces := Pieces(keys, params);
      ParsesBehind(url, Join(pieces));
      JoinFits(pieces, |Join(pieces)|);
      PiecesClean(keys, params);
      SplitJoined(pieces);
      assert keys[..0] == [] && pieces[0..] == pieces;
      InsertListed(keys, params, pieces, 0);
    }
  }
}
