/** The word counter of word_count_app.py: each review's title and body are
    tokenised, non-alphabetic tokens and stopwords are dropped, each
    distinct remaining word counts once per review, and the counts are
    listed from most to least frequent.

    The tokenizer, `str.lower`, `str.isalpha` and the stopword set come from
    libraries and are taken as given. */
module WordCount {

  /** The language tools the counter relies on: the spaCy tokenizer (token
      texts in order), `str.lower`, `str.isalpha` and the combined NLTK and
      spaCy stopword set. */
  datatype Tools = Tools(
    tokenize: string -> seq<string>,
    lower: string -> string,
    isAlpha: string -> bool,
    stopwords: set<string>)

  /** One row of the uploaded table, by its two columns of interest. */
  datatype Row = Row(title: string, body: string)

  /** One row of the result table. */
  datatype WordEntry = WordEntry(word: string, count: nat)

  // ---------------------------------------------------------------------
  // Token filter

  /** The tokens the filter keeps. */
  predicate Keeps(tools: Tools, token: string) {
    tools.isAlpha(token) && token !in tools.stopwords
  }

  /** The comprehension of `clean_and_tokenize_spacy` over a token list. */
  function KeepWords(tools: Tools, tokens: seq<string>): seq<string> {
    if tokens == [] then []
    else (if Keeps(tools, tokens[0]) then [tokens[0]] else []) + KeepWords(tools, tokens[1..])
  }

  /** Every kept token keeps all its occurrences, every other token loses
      all of them. */
  lemma {:induction false} KeepWordsCounts(tools: Tools, tokens: seq<string>, w: string)
    ensures multiset(KeepWords(tools, tokens))[w] == if Keeps(tools, w) then multiset(tokens)[w] else 0
  {
    if tokens != [] {
      KeepWordsCounts(tools, tokens[1..], w);
      assert tokens == [tokens[0]] + tokens[1..];
    }
  }

  /** The filter works token by token, so the kept words keep the
      tokenizer's order. */
  lemma {:induction false} KeepWordsAppend(tools: Tools, a: seq<string>, b: seq<string>)
    ensures KeepWords(tools, a + b) == KeepWords(tools, a) + KeepWords(tools, b)
  {
    if a == [] {
      assert a + b == b;
    } else {
      assert (a + b)[0] == a[0];
      assert (a + b)[1..] == a[1..] + b;
      KeepWordsAppend(tools, a[1..], b);
    }
  }

  /** `clean_and_tokenize_spacy(text, nlp)`. */
  function CleanAndTokenize(tools: Tools, text: string): seq<string> {
    KeepWords(tools, tools.tokenize(tools.lower(text)))
  }

  /** Every returned word is a token of the lowercased text, alphabetic and
      not a stopword; every such token is returned. */
  lemma CleanAndTokenizeMembers(tools: Tools, text: string, w: string)
    ensures w in CleanAndTokenize(tools, text) <==>
      w in tools.tokenize(tools.lower(text)) && Keeps(tools, w)
  {
    KeepWordsCounts(tools, tools.tokenize(tools.lower(text)), w);
  }

  // ---------------------------------------------------------------------
  // Counting specification

  /** The text counted for a row: `f"{row['Title']} {row['Body']}"`. */
  function ReviewText(row: Row): string {
    row.title + " " + row.body
  }

  /** The distinct words of one review. */
  function ReviewWords(tools: Tools, row: Row): set<string> {
    set w | w in CleanAndTokenize(tools, ReviewText(row))
  }

  /** The distinct words of each review, in row order. */
  function Docs(tools: Tools, rows: seq<Row>): (docs: seq<set<string>>)
    ensures |docs| == |rows|
    ensures forall i :: 0 <= i < |rows| ==> docs[i] == ReviewWords(tools, rows[i])
  {
    if rows == [] then [] else Docs(tools, rows[..|rows| - 1]) + [ReviewWords(tools, rows[|rows| - 1])]
  }

  /** The number of reviews whose word set contains `w`. */
  function DocFreq(docs: seq<set<string>>, w: string): nat {
    if docs == [] then 0
    else DocFreq(docs[..|docs| - 1], w) + (if w in docs[|docs| - 1] then 1 else 0)
  }

  /** A word's count lies between 0 and the number of reviews, and is
      positive exactly when some review contains it. */
  lemma {:induction false} DocFreqBounds(docs: seq<set<string>>, w: string)
    ensures DocFreq(docs, w) <= |docs|
    ensures DocFreq(docs, w) > 0 <==> exists i :: 0 <= i < |docs| && w in docs[i]
  {
    if docs != [] {
      var init := docs[..|docs| - 1];
      DocFreqBounds(init, w);
      if exists i :: 0 <= i < |init| && w in init[i] {
        var i :| 0 <= i < |init| && w in init[i];
        assert docs[i] == init[i];
      }
      if exists i :: 0 <= i < |docs| && w in docs[i] {
        var i :| 0 <= i < |docs| && w in docs[i];
        if i < |init| {
          assert init[i] == docs[i];
        }
      }
    }
  }

  /** One more review adds one to the count of each of its words. */
  lemma DocFreqSnoc(docs: seq<set<string>>, d: set<string>, w: string)
    ensures DocFreq(docs + [d], w) == DocFreq(docs, w) + (if w in d then 1 else 0)
  {
    assert (docs + [d])[..|docs|] == docs;
  }

  /** The count a `Counter` reports for a key: 0 when absent. */
  function CountOf(counter: map<string, nat>, w: string): nat {
    if w in counter then counter[w] else 0
  }

  /** The counter holds exactly the words of the processed reviews, each
      with the number of those reviews that contain it. */
  ghost predicate CountsDocs(counter: map<string, nat>, docs: seq<set<string>>) {
    forall w :: CountOf(counter, w) == DocFreq(docs, w) && (w in counter <==> DocFreq(docs, w) > 0)
  }

  // ---------------------------------------------------------------------
  // Sorting by count

  /** Non-increasing by count. */
  predicate SortedByCount(table: seq<WordEntry>) {
    forall i, j :: 0 <= i < j < |table| ==> table[i].count >= table[j].count
  }

  /** No word is listed twice. */
  predicate DistinctWords(table: seq<WordEntry>) {
    forall i, j :: 0 <= i < j < |table| ==> table[i].word != table[j].word
  }

  /** Places `x` before the first entry with a smaller count. */
  function Insert(x: WordEntry, table: seq<WordEntry>): seq<WordEntry> {
    if table == [] || x.count >= table[0].count then [x] + table
    else [table[0]] + Insert(x, table[1..])
  }

  /** A sorted table stays sorted without its first row. */
  lemma SortedTail(table: seq<WordEntry>)
    requires table != [] && SortedByCount(table)
    ensures SortedByCount(table[1..])
  {
    var tail := table[1..];
    forall i, j | 0 <= i < j < |tail| ensures tail[i].count >= tail[j].count {
      assert tail[i] == table[i + 1] && tail[j] == table[j + 1];
    }
  }

  /** A row with at least the first count can go in front. */
  lemma SortedCons(a: WordEntry, table: seq<WordEntry>)
    requires SortedByCount(table)
    requires table != [] ==> a.count >= table[0].count
    ensures SortedByCount([a] + table)
  {
    var r := [a] + table;
    forall i, j | 0 <= i < j < |r| ensures r[i].count >= r[j].count {
      assert r[j] == table[j - 1];
      if i > 0 {
        assert r[i] == table[i - 1];
      } else if j > 1 {
        assert table[0].count >= table[j - 1].count;
      }
    }
  }

  /** Insertion keeps a sorted table sorted and adds exactly one row. */
  lemma {:induction false} InsertKeepsOrder(x: WordEntry, table: seq<WordEntry>)
    requires SortedByCount(table)
    ensures SortedByCount(Insert(x, table))
    ensures multiset(Insert(x, table)) == multiset(table) + multiset{x}
    ensures Insert(x, table)[0] == x || Insert(x, table)[0] == table[0]
  {
    if table == [] || x.count >= table[0].count {
      SortedCons(x, table);
    } else {
      var tail := table[1..];
      assert table == [table[0]] + tail;
      SortedTail(table);
      InsertKeepsOrder(x, tail);
      var rest := Insert(x, tail);
      assert rest[0] == x || rest[0] == table[1];
      SortedCons(table[0], rest);
    }
  }

  /** `sort_values(by='Count', ascending=False)`: a permutation of the rows
      in non-increasing order of count. The tie order is not constrained,
      as pandas' default sort is not stable. */
  function SortByCountDescending(table: seq<WordEntry>): (r: seq<WordEntry>)
    ensures SortedByCount(r)
    ensures multiset(r) == multiset(table)
  {
    if table == [] then []
    else
      assert table == [table[0]] + table[1..];
      var sortedTail := SortByCountDescending(table[1..]);
      InsertKeepsOrder(table[0], sortedTail);
      Insert(table[0], sortedTail)
  }

  /** Sorting keeps the rows; so a table that listed each word once still
      does. */
  lemma DistinctAfterPermutation(a: seq<WordEntry>, b: seq<WordEntry>)
    requires multiset(a) == multiset(b) && DistinctWords(a)
    ensures DistinctWords(b)
  {
    forall i, j | 0 <= i < j < |b| ensures b[i].word != b[j].word {
      if b[i].word == b[j].word {
        TwoIndicesTwoCopies(b, i, j);
        var p :| 0 <= p < |a| && a[p] == b[i];
        var q :| 0 <= q < |a| && a[q] == b[j];
        if b[i] == b[j] {
          OneIndexOneCopy(a, p);
        }
      }
    }
  }

  lemma TwoIndicesTwoCopies(s: seq<WordEntry>, i: nat, j: nat)
    requires i < j < |s|
    ensures s[i] in multiset(s) && s[j] in multiset(s)
    ensures s[i] == s[j] ==> multiset(s)[s[i]] >= 2
  {
    assert s == s[..j] + [s[j]] + s[j + 1..];
    assert s[i] in s[..j];
  }

  lemma OneIndexOneCopy(s: seq<WordEntry>, p: nat)
    requires p < |s| && DistinctWords(s)
    ensures multiset(s)[s[p]] == 1
  {
    assert s == s[..p] + [s[p]] + s[p + 1..];
    assert s[p] !in s[..p] by {
      forall k | 0 <= k < p ensures s[..p][k] != s[p] { assert s[..p][k] == s[k]; }
    }
    var after := s[p + 1..];
    assert s[p] !in after by {
      forall k | 0 <= k < |after| ensures after[k] != s[p] {
        assert after[k] == s[p + 1 + k];
      }
    }
  }

  // ---------------------------------------------------------------------
  // The counter

  /** `word_counter.update(unique_words_in_review)`: every word of the set
      gains exactly one, every other entry is unchanged. */
  method UpdateCounter(counter: map<string, nat>, words: set<string>) returns (updated: map<string, nat>)
    ensures updated.Keys == counter.Keys + words
    ensures forall w :: CountOf(updated, w) == CountOf(counter, w) + (if w in words then 1 else 0)
  {
    updated := counter;
    var rest := words;
    while rest != {}
      invariant rest <= words
      invariant updated.Keys == counter.Keys + (words - rest)
      invariant forall w :: CountOf(updated, w) == CountOf(counter, w) + (if w in words - rest then 1 else 0)
      decreases rest
    {
      var w :| w in rest;
      updated := updated[w := CountOf(updated, w) + 1];
      rest := rest - {w};
    }
  }

  /** `word_counter.items()`: one row per key, with its count. */
  method CounterItems(counter: map<string, nat>) returns (items: seq<WordEntry>)
    ensures DistinctWords(items)
    ensures forall i :: 0 <= i < |items| ==> items[i].word in counter && items[i].count == counter[items[i].word]
    ensures forall w :: w in counter ==> exists i :: 0 <= i < |items| && items[i].word == w
  {
    items := [];
    var rest := counter.Keys;
    while rest != {}
      invariant rest <= counter.Keys
      invariant DistinctWords(items)
      invariant forall i :: 0 <= i < |items| ==> items[i].word in counter.Keys - rest && items[i].count == counter[items[i].word]
      invariant forall w :: w in counter.Keys - rest ==> exists i :: 0 <= i < |items| && items[i].word == w
      decreases rest
    {
      var w :| w in rest;
      ghost var before, seen := items, counter.Keys - rest;
      items := items + [WordEntry(w, counter[w])];
      rest := rest - {w};
      forall v | v in counter.Keys - rest ensures exists i :: 0 <= i < |items| && items[i].word == v {
        if v == w {
          assert items[|items| - 1].word == v;
        } else {
          assert v in seen;
          var i :| 0 <= i < |before| && before[i].word == v;
          assert items[i].word == v;
        }
      }
    }
    assert counter.Keys - rest == counter.Keys;
  }

  /** The loop of `count_unique_words_in_reviews`: after it, each word's
      count is the number of reviews whose filtered word set contains it, so
      a review adds at most one to any word. */
  method CountReviewWords(tools: Tools, rows: seq<Row>) returns (wordCounter: map<string, nat>)
    ensures CountsDocs(wordCounter, Docs(tools, rows))
  {
    ghost var docs := Docs(tools, rows);
    wordCounter := map[];
    for i := 0 to |rows|
      invariant CountsDocs(wordCounter, docs[..i])
    {
      var text := ReviewText(rows[i]);
      var uniqueWordsInReview := set w | w in CleanAndTokenize(tools, text);
      assert docs[..i + 1] == docs[..i] + [uniqueWordsInReview];
      ghost var before := wordCounter;
      wordCounter := UpdateCounter(wordCounter, uniqueWordsInReview);
      forall w ensures CountOf(wordCounter, w) == DocFreq(docs[..i + 1], w)
        && (w in wordCounter <==> DocFreq(docs[..i + 1], w) > 0)
      {
        DocFreqSnoc(docs[..i], uniqueWordsInReview, w);
      }
    }
    assert docs[..|rows|] == docs;
  }

  /** `count_unique_words_in_reviews`: one row per word found in some
      review, counting the reviews that contain it, most frequent first. */
  method CountUniqueWordsInReviews(tools: Tools, rows: seq<Row>) returns (table: seq<WordEntry>)
    ensures SortedByCount(table)
    ensures DistinctWords(table)
    ensures forall i :: 0 <= i < |table| ==>
      table[i].count == DocFreq(Docs(tools, rows), table[i].word) && 1 <= table[i].count <= |rows|
    ensures forall r, w :: 0 <= r < |rows| && w in ReviewWords(tools, rows[r]) ==>
      exists i :: 0 <= i < |table| && table[i].word == w
  {
    var wordCounter := CountReviewWords(tools, rows);
    var items := CounterItems(wordCounter);
    table := SortByCountDescending(items);

    ghost var docs := Docs(tools, rows);
    DistinctAfterPermutation(items, table);
    forall i | 0 <= i < |table|
      ensures table[i].count == DocFreq(docs, table[i].word) && 1 <= table[i].count <= |rows|
    {
      assert table[i] in multiset(items);
      DocFreqBounds(docs, table[i].word);
    }
    forall r, w | 0 <= r < |rows| && w in ReviewWords(tools, rows[r])
      ensures exists i :: 0 <= i < |table| && table[i].word == w
    {
      DocFreqBounds(docs, w);
      assert w in docs[r];
      var k :| 0 <= k < |items| && items[k].word == w;
      assert items[k] in multiset(table);
    }
  }
}
