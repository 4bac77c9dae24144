/**
 Collecting a creator's corpus under a character budget and merging it for distillation
 (src/media2text/agent/creator_distill/collect.py, collect_local.py, merge_corpus.py).
 Reading a file and listing a glob are parameters.
 */
module Corpus {
  import opened Wrappers
  import opened Text

  datatype Slice = Slice(path: string, kind: string, chars: nat, text: string)

  /** A path that a manifest item names, relative to the workspace if it lies inside. */
  datatype Ref = Ref(kind: string, rel: string)

  /** The readable files. */
  type Files = map<string, string>

  function Sum(slices: seq<Slice>): nat {
    if slices == [] then 0 else slices[0].chars + Sum(slices[1..])
  }

  lemma {:induction false} SumCat(a: seq<Slice>, b: seq<Slice>)
    ensures Sum(a + b) == Sum(a) + Sum(b)
  {
    if a == [] {
      assert a + b == b;
    } else {
      assert (a + b)[1..] == a[1..] + b;
      SumCat(a[1..], b);
    }
  }

  // ---------------------------------------------------------------------------------------------
  // The manifest
  // ---------------------------------------------------------------------------------------------

  /** The text within the budget; empty for a file that cannot be read. */
  function ReadText(files: Files, rel: string, budget: int): string {
    if budget <= 0 || rel !in files then "" else Take(files[rel], budget)
  }

  /** Each file once, as much of it as the budget still allows. */
  function Collected(files: Files, refs: seq<Ref>, seen: set<string>, budget: int): seq<Slice> {
    if refs == [] then []
    else
      var rel, text := refs[0].rel, ReadText(files, refs[0].rel, budget);
      if rel in seen then Collected(files, refs[1..], seen, budget)
      else if text == "" then Collected(files, refs[1..], seen + {rel}, budget)
      else [Slice(rel, refs[0].kind, |text|, text)] + Collected(files, refs[1..], seen + {rel}, budget - |text|)
  }

  function Rels(refs: seq<Ref>): set<string> {
    set r | r in refs :: r.rel
  }

  function Flat<T>(groups: seq<seq<T>>): seq<T> {
    if groups == [] then [] else groups[0] + Flat(groups[1..])
  }

  lemma {:induction false} NothingLeft(files: Files, refs: seq<Ref>, seen: set<string>, budget: int)
    requires budget <= 0
    ensures Collected(files, refs, seen, budget) == []
  {
    if refs != [] {
      NothingLeft(files, refs[1..], seen, budget);
      NothingLeft(files, refs[1..], seen + {refs[0].rel}, budget);
    }
  }

  /** The slices never take more than the budget. */
  lemma {:induction false} CollectedWithin(files: Files, refs: seq<Ref>, seen: set<string>, budget: int)
    ensures Sum(Collected(files, refs, seen, budget)) <= (if budget < 0 then 0 else budget)
  {
    if budget <= 0 {
      NothingLeft(files, refs, seen, budget);
    } else if refs != [] {
      var rel, text := refs[0].rel, ReadText(files, refs[0].rel, budget);
      CollectedWithin(files, refs[1..], seen, budget);
      CollectedWithin(files, refs[1..], seen + {rel}, budget);
      CollectedWithin(files, refs[1..], seen + {rel}, budget - |text|);
    }
  }

  predicate Fresh(slices: seq<Slice>, seen: set<string>) {
    && (forall i :: 0 <= i < |slices| ==> slices[i].path !in seen)
    && (forall i, j :: 0 <= i < j < |slices| ==> slices[i].path != slices[j].path)
  }

  lemma FreshCons(first: Slice, rest: seq<Slice>, seen: set<string>)
    requires first.path !in seen && Fresh(rest, seen + {first.path})
    ensures Fresh([first] + rest, seen)
  {
  }

  /** No path is collected twice, and none that was seen before. */
  lemma {:induction false} CollectedDistinct(files: Files, refs: seq<Ref>, seen: set<string>, budget: int)
    ensures Fresh(Collected(files, refs, seen, budget), seen)
  {
    if refs != [] {
      var rel, text := refs[0].rel, ReadText(files, refs[0].rel, budget);
      if rel in seen {
        CollectedDistinct(files, refs[1..], seen, budget);
      } else if text == "" {
        CollectedDistinct(files, refs[1..], seen + {rel}, budget);
      } else {
        var rest := Collected(files, refs[1..], seen + {rel}, budget - |text|);
        CollectedDistinct(files, refs[1..], seen + {rel}, budget - |text|);
        FreshCons(Slice(rel, refs[0].kind, |text|, text), rest, seen);
      }
    }
  }

  /** A budget that is not used up left out nothing: every readable file is there, uncut. */
  lemma {:induction false} CollectedComplete(files: Files, refs: seq<Ref>, seen: set<string>, budget: int, rel: string)
    requires Sum(Collected(files, refs, seen, budget)) < budget
    requires rel in Rels(refs) && rel !in seen && rel in files && files[rel] != ""
    ensures exists s :: s in Collected(files, refs, seen, budget) && s.path == rel && s.text == files[rel]
  {
    var first, text := refs[0].rel, ReadText(files, refs[0].rel, budget);
    if first in seen {
      CollectedComplete(files, refs[1..], seen, budget, rel);
    } else if text == "" {
      assert first != rel;
      CollectedComplete(files, refs[1..], seen + {first}, budget, rel);
    } else {
      var s := Slice(first, refs[0].kind, |text|, text);
      var rest := Collected(files, refs[1..], seen + {first}, budget - |text|);
      var all := [s] + rest;
      assert all[0] == s && all[1..] == rest;
      if first == rel {
        assert s in all;
      } else {
        CollectedComplete(files, refs[1..], seen + {first}, budget - |text|, rel);
        var t :| t in rest && t.path == rel && t.text == files[rel];
        assert t in all;
      }
    }
  }

  /** What a collected slice is: the start of a readable file that an item names, with its length and kind. */
  ghost predicate IsListed(files: Files, refs: seq<Ref>, s: Slice) {
    && Ref(s.kind, s.path) in refs && s.path in files
    && s.text != "" && s.text <= files[s.path] && s.chars == |s.text|
  }

  lemma {:induction false} CollectedAre(files: Files, refs: seq<Ref>, seen: set<string>, budget: int)
    ensures forall s :: s in Collected(files, refs, seen, budget) ==> IsListed(files, refs, s)
  {
    if refs != [] {
      var rel, text := refs[0].rel, ReadText(files, refs[0].rel, budget);
      CollectedAre(files, refs[1..], seen, budget);
      CollectedAre(files, refs[1..], seen + {rel}, budget);
      CollectedAre(files, refs[1..], seen + {rel}, budget - |text|);
      assert refs[0] == Ref(refs[0].kind, rel);
    }
  }

  lemma RegroupItems(slices: seq<Slice>, more: seq<Slice>, left: seq<Slice>, all: seq<Slice>)
    requires all == slices + (more + left)
    ensures all == (slices + more) + left && Sum(slices + more) == Sum(slices) + Sum(more)
  {
    SumCat(slices, more);
  }

  lemma FlatStep(done: seq<Ref>, items: seq<seq<Ref>>, i: nat)
    requires i < |items|
    ensures Flat(items[i..]) == items[i] + Flat(items[i + 1..])
    ensures done + Flat(items[i..]) == (done + items[i]) + Flat(items[i + 1..])
    ensures Rels(done + items[i]) == Rels(done) + Rels(items[i])
  {
    assert items[i..][1..] == items[i + 1..];
  }

  method CollectItems(files: Files, items: seq<seq<Ref>>, budget0: int)
    returns (slices: seq<Slice>, seen: set<string>, budget: int)
    ensures slices == Collected(files, Flat(items), {}, budget0)
    ensures budget + Sum(slices) == budget0
    ensures budget > 0 ==> seen == Rels(Flat(items))
  {
    slices, seen, budget := [], {}, budget0;
    ghost var refs := Flat(items);
    ghost var all := Collected(files, refs, {}, budget0);
    ghost var done: seq<Ref> := [];
    for i := 0 to |items|
      invariant refs == done + Flat(items[i..])
      invariant all == slices + Collected(files, Flat(items[i..]), seen, budget)
      invariant budget + Sum(slices) == budget0 && seen == Rels(done)
    {
      if budget <= 0 {
        NothingLeft(files, Flat(items[i..]), seen, budget);
        return;
      }
      FlatStep(done, items, i);
      var more: seq<Slice>;
      more, seen, budget := CollectRefs(files, items[i], Flat(items[i + 1..]), seen, budget);
      RegroupItems(slices, more, Collected(files, Flat(items[i + 1..]), seen, budget), all);
      slices := slices + more;
      done := done + items[i];
    }
    assert items[|items|..] == [];
  }

  method CollectRefs(files: Files, refs: seq<Ref>, ghost rest: seq<Ref>, seen0: set<string>, budget0: int)
    returns (slices: seq<Slice>, seen: set<string>, budget: int)
    ensures Collected(files, refs + rest, seen0, budget0) == slices + Collected(files, rest, seen, budget)
    ensures budget + Sum(slices) == budget0 && seen == seen0 + Rels(refs)
  {
    slices, seen, budget := [], seen0, budget0;
    ghost var all := Collected(files, refs + rest, seen0, budget0);
    for i := 0 to |refs|
      invariant all == slices + Collected(files, refs[i..] + rest, seen, budget)
      invariant budget + Sum(slices) == budget0 && seen == seen0 + Rels(refs[..i])
    {
      ghost var tail := refs[i + 1..] + rest;
      RefStep(refs, rest, i);
      var more: seq<Slice>;
      more, seen, budget := CollectRef(files, refs[i], tail, seen, budget);
      RegroupItems(slices, more, Collected(files, tail, seen, budget), all);
      slices := slices + more;
    }
    assert refs[|refs|..] + rest == rest && refs[..|refs|] == refs;
  }

  method CollectRef(files: Files, r: Ref, ghost tail: seq<Ref>, seen0: set<string>, budget0: int)
    returns (more: seq<Slice>, seen: set<string>, budget: int)
    ensures Collected(files, [r] + tail, seen0, budget0) == more + Collected(files, tail, seen, budget)
    ensures budget + Sum(more) == budget0 && seen == seen0 + {r.rel}
  {
    more, seen, budget := [], seen0, budget0;
    CollectedCons(files, r, tail, seen, budget);
    if r.rel in seen {
      return;
    }
    seen := seen + {r.rel};
    var text := ReadText(files, r.rel, budget);
    if text == "" {
      return;
    }
    more := [Slice(r.rel, r.kind, |text|, text)];
    budget := budget - |text|;
  }

  lemma CollectedCons(files: Files, r: Ref, rest: seq<Ref>, seen: set<string>, budget: int)
    ensures var text, more := ReadText(files, r.rel, budget), seen + {r.rel};
            Collected(files, [r] + rest, seen, budget) ==
            if r.rel in seen then Collected(files, rest, seen, budget)
            else if text == "" then Collected(files, rest, more, budget)
            else [Slice(r.rel, r.kind, |text|, text)] + Collected(files, rest, more, budget - |text|)
  {
    assert ([r] + rest)[1..] == rest;
  }

  lemma RefStep(refs: seq<Ref>, rest: seq<Ref>, i: nat)
    requires i < |refs|
    ensures refs[i..] + rest == [refs[i]] + (refs[i + 1..] + rest)
    ensures (refs[i..] + rest)[1..] == refs[i + 1..] + rest
    ensures Rels(refs[..i + 1]) == Rels(refs[..i]) + {refs[i].rel}
  {
    assert refs[..i + 1] == refs[..i] + [refs[i]];
  }

  // ---------------------------------------------------------------------------------------------
  // The local scan
  // ---------------------------------------------------------------------------------------------

  /** A path that a glob matched: where it resolves to, what it is, its text if it can be read. */
  datatype Found = Found(rel: string, key: string, kind: string, isFile: bool, suffixOk: bool, text: Option<string>)

  /** The files that become hits; `left` counts the hits still allowed. */
  function Scan(paths: seq<Found>, left: int, seen: set<string>, budget: int): seq<Slice> {
    if paths == [] || left <= 0 || budget <= 0 then []
    else
      var p, rest := paths[0], paths[1..];
      if !p.isFile || !p.suffixOk || p.key in seen then Scan(rest, left, seen, budget)
      else if p.text.None? || Strip(p.text.value) == "" then Scan(rest, left, seen + {p.key}, budget)
      else
        var text := Take(p.text.value, budget);
        [Slice(p.rel, p.kind, |text|, text)] + Scan(rest, left - 1, seen + {p.key}, budget - |text|)
  }

  lemma {:induction false} ScanWithin(paths: seq<Found>, left: int, seen: set<string>, budget: int)
    ensures Sum(Scan(paths, left, seen, budget)) <= (if budget < 0 then 0 else budget)
    ensures |Scan(paths, left, seen, budget)| <= (if left < 0 then 0 else left)
  {
    if paths != [] && left > 0 && budget > 0 {
      var p, rest := paths[0], paths[1..];
      ScanWithin(rest, left, seen, budget);
      ScanWithin(rest, left, seen + {p.key}, budget);
      if p.text.Some? {
        ScanWithin(rest, left - 1, seen + {p.key}, budget - |Take(p.text.value, budget)|);
      }
    }
  }

  /** What a hit is: the start of a matched file that is readable and not blank. */
  ghost predicate IsHit(paths: seq<Found>, s: Slice) {
    exists p :: p in paths && p.isFile && p.suffixOk && p.rel == s.path && p.kind == s.kind
      && p.text.Some? && Strip(p.text.value) != "" && s.text <= p.text.value && s.chars == |s.text|
  }

  lemma {:induction false} ScanAre(paths: seq<Found>, left: int, seen: set<string>, budget: int)
    ensures forall s :: s in Scan(paths, left, seen, budget) ==> IsHit(paths, s)
  {
    if paths != [] && left > 0 && budget > 0 {
      var p, rest := paths[0], paths[1..];
      ScanAre(rest, left, seen, budget);
      ScanAre(rest, left, seen + {p.key}, budget);
      if p.text.Some? {
        ScanAre(rest, left - 1, seen + {p.key}, budget - |Take(p.text.value, budget)|);
      }
    }
  }

  /** A new, readable match, and the first with its key: nothing but the limits can keep it out. */
  ghost predicate Qualifies(paths: seq<Found>, seen: set<string>, i: nat) {
    && i < |paths| && paths[i].isFile && paths[i].suffixOk && paths[i].key !in seen
    && paths[i].text.Some? && Strip(paths[i].text.value) != ""
    && forall j :: 0 <= j < i ==> paths[j].key != paths[i].key
  }

  /** If neither limit is reached, every qualifying file is a hit, uncut. */
  lemma {:induction false} ScanComplete(paths: seq<Found>, left: int, seen: set<string>, budget: int, i: nat)
    requires Qualifies(paths, seen, i)
    requires var hits := Scan(paths, left, seen, budget); |hits| < left && Sum(hits) < budget
    ensures exists s :: s in Scan(paths, left, seen, budget) && s.path == paths[i].rel && s.text == paths[i].text.value
    decreases |paths|
  {
    var p, rest := paths[0], paths[1..];
    var all := Scan(paths, left, seen, budget);
    if !p.isFile || !p.suffixOk || p.key in seen {
      QualifiesLater(paths, seen, seen, i);
      ScanComplete(rest, left, seen, budget, i - 1);
    } else if p.text.None? || Strip(p.text.value) == "" {
      QualifiesLater(paths, seen, seen + {p.key}, i);
      ScanComplete(rest, left, seen + {p.key}, budget, i - 1);
    } else {
      var text := Take(p.text.value, budget);
      var hit, tail := Slice(p.rel, p.kind, |text|, text), Scan(rest, left - 1, seen + {p.key}, budget - |text|);
      assert all == [hit] + tail && all[1..] == tail;
      if i == 0 {
        assert all[0] in all;
      } else {
        QualifiesLater(paths, seen, seen + {p.key}, i);
        ScanComplete(rest, left - 1, seen + {p.key}, budget - |text|, i - 1);
        var s :| s in tail && s.path == paths[i].rel && s.text == paths[i].text.value;
        assert s in all;
      }
    }
  }

  lemma QualifiesLater(paths: seq<Found>, seen: set<string>, more: set<string>, i: nat)
    requires Qualifies(paths, seen, i) && i > 0 && more <= seen + {paths[0].key}
    ensures Qualifies(paths[1..], more, i - 1)
  {
  }

  /** A path always resolves to the same file. */
  ghost predicate Resolves(paths: seq<Found>, key: map<string, string>) {
    forall p :: p in paths ==> p.rel in key && key[p.rel] == p.key
  }

  /** The keys of the hits are new and distinct, so their paths are. */
  lemma {:induction false} ScanDistinct(paths: seq<Found>, left: int, seen: set<string>, budget: int,
                                        key: map<string, string>)
    requires Resolves(paths, key)
    ensures var hits := Scan(paths, left, seen, budget);
            && (forall i :: 0 <= i < |hits| ==> hits[i].path in key && key[hits[i].path] !in seen)
            && Fresh(hits, {})
  {
    if paths != [] && left > 0 && budget > 0 {
      var p, rest := paths[0], paths[1..];
      assert Resolves(rest, key) && p in paths;
      ScanDistinct(rest, left, seen, budget, key);
      ScanDistinct(rest, left, seen + {p.key}, budget, key);
      if p.text.Some? {
        ScanDistinct(rest, left - 1, seen + {p.key}, budget - |Take(p.text.value, budget)|, key);
      }
    }
  }

  /** The inner loop over the matches of one glob; `rest` are the matches of the globs after it. */
  method ScanMatches(paths: seq<Found>, ghost rest: seq<Found>, maxFiles: int,
                     hits0: seq<Slice>, seen0: set<string>, budget0: int)
    returns (hits: seq<Slice>, seen: set<string>, budget: int)
    ensures hits0 + Scan(paths + rest, maxFiles - |hits0|, seen0, budget0)
         == hits + Scan(rest, maxFiles - |hits|, seen, budget)
    ensures budget + Sum(hits) == budget0 + Sum(hits0)
  {
    hits, seen, budget := hits0, seen0, budget0;
    for i := 0 to |paths|
      invariant hits0 + Scan(paths + rest, maxFiles - |hits0|, seen0, budget0)
             == hits + Scan(paths[i..] + rest, maxFiles - |hits|, seen, budget)
      invariant budget + Sum(hits) == budget0 + Sum(hits0)
    {
      if |hits| >= maxFiles || budget <= 0 {
        break;
      }
      assert (paths[i..] + rest)[1..] == paths[i + 1..] + rest;
      var p := paths[i];
      if !p.isFile || !p.suffixOk || p.key in seen {
        continue;
      }
      seen := seen + {p.key};
      if p.text.None? || Strip(p.text.value) == "" {
        continue;
      }
      var text := Take(p.text.value, budget);
      var hit := Slice(p.rel, p.kind, |text|, text);
      RegroupItems(hits, [hit], Scan(paths[i + 1..] + rest, maxFiles - |hits| - 1, seen, budget - |text|),
                   hits0 + Scan(paths + rest, maxFiles - |hits0|, seen0, budget0));
      hits := hits + [hit];
      budget := budget - |text|;
    }
    assert paths[|paths|..] + rest == rest;
  }

  method ScanLocalFiles(enabled: bool, rootExists: bool, globs: seq<seq<Found>>, maxFiles: int, budget0: int)
    returns (hits: seq<Slice>)
    ensures hits == if enabled && rootExists then Scan(Flat(globs), maxFiles, {}, budget0) else []
  {
    hits := [];
    if !enabled || budget0 <= 0 || !rootExists {
      return;
    }
    var seen: set<string>, budget := {}, budget0;
    for i := 0 to |globs|
      invariant Scan(Flat(globs), maxFiles, {}, budget0)
             == hits + Scan(Flat(globs[i..]), maxFiles - |hits|, seen, budget)
    {
      assert globs[i..][1..] == globs[i + 1..];
      hits, seen, budget := ScanMatches(globs[i], Flat(globs[i + 1..]), maxFiles, hits, seen, budget);
    }
    assert globs[|globs|..] == [];
  }

  // ---------------------------------------------------------------------------------------------
  // The corpus
  // ---------------------------------------------------------------------------------------------

  function Meta(header: string, maxChars: int): seq<Slice> {
    if maxChars <= 0 then []
    else [Slice("meta", "meta", |Take(header, maxChars)|, Take(header, maxChars))]
  }

  /** The hits whose paths were not collected before. */
  function NewHits(hits: seq<Slice>, seen: set<string>): seq<Slice> {
    if hits == [] then []
    else if hits[0].path in seen then NewHits(hits[1..], seen)
    else [hits[0]] + NewHits(hits[1..], seen + {hits[0].path})
  }

  /** The slices of manifest and scan, in order. */
  function LocalSlices(files: Files, refs: seq<Ref>, paths: seq<Found>, maxFiles: int, budget: int): seq<Slice> {
    var listed := Collected(files, refs, {}, budget);
    listed + NewHits(Scan(paths, maxFiles, {}, budget - Sum(listed)), Rels(refs))
  }

  method AddHits(hits: seq<Slice>, seen0: set<string>, slices0: seq<Slice>) returns (slices: seq<Slice>)
    ensures slices == slices0 + NewHits(hits, seen0)
  {
    slices := slices0;
    var seen := seen0;
    for i := 0 to |hits|
      invariant slices0 + NewHits(hits, seen0) == slices + NewHits(hits[i..], seen)
    {
      assert hits[i..][1..] == hits[i + 1..];
      if hits[i].path in seen {
        continue;
      }
      seen := seen + {hits[i].path};
      slices := slices + [hits[i]];
    }
  }

  method CollectMeta(header: string, maxChars: int) returns (slices: seq<Slice>, budget: int)
    ensures slices == Meta(header, maxChars) && budget == maxChars - Sum(slices)
  {
    slices, budget := [], maxChars;
    if budget > 0 {
      var take := if |header| <= budget then |header| else budget;
      assert header[..take] == Take(header, budget);
      slices := [Slice("meta", "meta", take, header[..take])];
      assert slices[1..] == [];
      budget := budget - take;
    }
  }

  lemma NoBudgetNoHits(paths: seq<Found>, maxFiles: int, budget: int, seen: set<string>)
    requires budget <= 0
    ensures NewHits(Scan(paths, maxFiles, {}, budget), seen) == []
  {
  }

  method CollectLocal(files: Files, items: seq<seq<Ref>>, enabled: bool, rootExists: bool,
                      globs: seq<seq<Found>>, maxFiles: int, budget: int)
    returns (slices: seq<Slice>)
    ensures var paths := if enabled && rootExists then Flat(globs) else [];
            slices == LocalSlices(files, Flat(items), paths, maxFiles, budget)
  {
    var seen, left;
    slices, seen, left := CollectItems(files, items, budget);
    if enabled {
      var hits := ScanLocalFiles(enabled, rootExists, globs, maxFiles, left);
      if left <= 0 {
        NoBudgetNoHits(Flat(globs), maxFiles, left, seen);
        NoBudgetNoHits(Flat(globs), maxFiles, left, Rels(Flat(items)));
      }
      slices := AddHits(hits, seen, slices);
    }
  }

  method CollectCorpus(files: Files, header: string, items: seq<seq<Ref>>, maxItems: int,
                       enabled: bool, rootExists: bool, globs: seq<seq<Found>>, maxFiles: int, maxChars: int)
    returns (slices: seq<Slice>, total: nat)
    ensures var meta := Meta(header, maxChars);
            var paths := if enabled && rootExists then Flat(globs) else [];
            slices == meta + LocalSlices(files, Flat(Take(items, maxItems)), paths, maxFiles, maxChars - Sum(meta))
    ensures total == Sum(slices)
  {
    var taken := Take(items, maxItems);
    var meta, budget := CollectMeta(header, maxChars);
    var local := CollectLocal(files, taken, enabled, rootExists, globs, maxFiles, budget);
    slices := meta + local;
    total := SumLoop(slices);
  }

  method SumLoop(slices: seq<Slice>) returns (total: nat)
    ensures total == Sum(slices)
  {
    total := 0;
    for i := 0 to |slices|
      invariant total + Sum(slices[i..]) == Sum(slices)
    {
      total := total + slices[i].chars;
    }
  }

  lemma {:induction false} NewHitsFew(hits: seq<Slice>, seen: set<string>)
    ensures Sum(NewHits(hits, seen)) <= Sum(hits) && Fresh(NewHits(hits, seen), seen)
  {
    if hits != [] {
      NewHitsFew(hits[1..], seen);
      NewHitsFew(hits[1..], seen + {hits[0].path});
      if hits[0].path !in seen {
        FreshCons(hits[0], NewHits(hits[1..], seen + {hits[0].path}), seen);
      }
    }
  }

  lemma NewHitsFresh(hits: seq<Slice>, seen: set<string>)
    ensures Fresh(NewHits(hits, seen), seen)
  {
    NewHitsFew(hits, seen);
  }

  /** A hit is left out exactly if its path was seen before, or is that of an earlier hit. */
  lemma {:induction false} NewHitsAre(hits: seq<Slice>, seen: set<string>, path: string)
    ensures forall s :: s in NewHits(hits, seen) ==> s in hits
    ensures (exists s :: s in NewHits(hits, seen) && s.path == path) <==>
            path !in seen && exists s :: s in hits && s.path == path
  {
    if hits != [] {
      var first, rest := hits[0], hits[1..];
      assert hits == [first] + rest;
      NewHitsAre(rest, seen, path);
      NewHitsAre(rest, seen + {first.path}, path);
      if first.path !in seen {
        var tail := NewHits(rest, seen + {first.path});
        assert forall s :: s in [first] + tail <==> s == first || s in tail;
      }
    }
  }

  lemma LocalWithin(files: Files, refs: seq<Ref>, paths: seq<Found>, maxFiles: int, budget: int)
    ensures Sum(LocalSlices(files, refs, paths, maxFiles, budget)) <= (if budget < 0 then 0 else budget)
  {
    var listed := Collected(files, refs, {}, budget);
    var hits := Scan(paths, maxFiles, {}, budget - Sum(listed));
    CollectedWithin(files, refs, {}, budget);
    ScanWithin(paths, maxFiles, {}, budget - Sum(listed));
    NewHitsFew(hits, Rels(refs));
    SumCat(listed, NewHits(hits, Rels(refs)));
  }

  /** Within a positive limit the header comes first, as much of it as fits; otherwise there is nothing. */
  lemma HeaderFirst(files: Files, header: string, refs: seq<Ref>, paths: seq<Found>, maxFiles: int, maxChars: int)
    ensures var meta := Meta(header, maxChars);
            var all := meta + LocalSlices(files, refs, paths, maxFiles, maxChars - Sum(meta));
            && (all == [] <==> maxChars <= 0)
            && (maxChars > 0 ==>
                  && all[0].kind == "meta" && all[0].path == "meta" && all[0].text <= header
                  && |all[0].text| == all[0].chars == if |header| <= maxChars then |header| else maxChars)
  {
    if maxChars <= 0 {
      NothingLeft(files, refs, {}, maxChars);
      NoBudgetNoHits(paths, maxFiles, maxChars, Rels(refs));
    }
  }

  /** All slices together stay within the limit. */
  lemma CorpusWithin(files: Files, header: string, refs: seq<Ref>, paths: seq<Found>, maxFiles: int, maxChars: int)
    ensures var meta := Meta(header, maxChars);
            Sum(meta + LocalSlices(files, refs, paths, maxFiles, maxChars - Sum(meta)))
            <= (if maxChars < 0 then 0 else maxChars)
  {
    var meta := Meta(header, maxChars);
    LocalWithin(files, refs, paths, maxFiles, maxChars - Sum(meta));
    SumCat(meta, LocalSlices(files, refs, paths, maxFiles, maxChars - Sum(meta)));
  }

  lemma {:induction false} CollectedFromRefs(files: Files, refs: seq<Ref>, seen: set<string>, budget: int)
    ensures forall s :: s in Collected(files, refs, seen, budget) ==> s.path in Rels(refs)
  {
    if refs != [] {
      var rel, text := refs[0].rel, ReadText(files, refs[0].rel, budget);
      CollectedFromRefs(files, refs[1..], seen, budget);
      CollectedFromRefs(files, refs[1..], seen + {rel}, budget);
      CollectedFromRefs(files, refs[1..], seen + {rel}, budget - |text|);
      assert Rels(refs) == {rel} + Rels(refs[1..]);
    }
  }

  lemma FreshCat(a: seq<Slice>, b: seq<Slice>, seen: set<string>)
    requires Fresh(a, {}) && Fresh(b, seen) && forall s :: s in a ==> s.path in seen
    ensures Fresh(a + b, {})
  {
    assert forall i :: 0 <= i < |a| ==> a[i] in a;
  }

  /** No file is in the corpus twice, be it listed in the manifest, found by globs or both. */
  lemma LocalDistinct(files: Files, refs: seq<Ref>, paths: seq<Found>, maxFiles: int, budget: int)
    ensures Fresh(LocalSlices(files, refs, paths, maxFiles, budget), {})
  {
    var listed := Collected(files, refs, {}, budget);
    var hits := Scan(paths, maxFiles, {}, budget - Sum(listed));
    CollectedDistinct(files, refs, {}, budget);
    CollectedFromRefs(files, refs, {}, budget);
    NewHitsFresh(hits, Rels(refs));
    FreshCat(listed, NewHits(hits, Rels(refs)), Rels(refs));
  }

  lemma SumOfThree(a: seq<Slice>, b: seq<Slice>, c: seq<Slice>)
    ensures Sum(a + (b + c)) == Sum(a) + Sum(b) + Sum(c)
  {
    SumCat(b, c);
    SumCat(a, b + c);
  }

  /**
   Every slice of the corpus is the start of the header, or of a file that the manifest lists, or of one
   that a glob matched; and nothing keeps a hit out but a path that is there already.
   */
  lemma CorpusAre(files: Files, header: string, refs: seq<Ref>, paths: seq<Found>,
                  maxFiles: int, maxChars: int, s: Slice)
    requires var meta := Meta(header, maxChars);
             s in meta + LocalSlices(files, refs, paths, maxFiles, maxChars - Sum(meta))
    ensures || (s.kind == "meta" && s.path == "meta" && s.text <= header && s.chars == |s.text|)
            || IsListed(files, refs, s) || IsHit(paths, s)
  {
    var budget := maxChars - Sum(Meta(header, maxChars));
    var listed := Collected(files, refs, {}, budget);
    var left := budget - Sum(listed);
    CollectedAre(files, refs, {}, budget);
    ScanAre(paths, maxFiles, {}, left);
    NewHitsAre(Scan(paths, maxFiles, {}, left), Rels(refs), s.path);
  }

  /** If the whole corpus is below the limit, every readable file of the manifest is there, uncut. */
  lemma ManifestComplete(files: Files, header: string, refs: seq<Ref>, paths: seq<Found>,
                         maxFiles: int, maxChars: int, rel: string)
    requires var meta := Meta(header, maxChars);
             Sum(meta + LocalSlices(files, refs, paths, maxFiles, maxChars - Sum(meta))) < maxChars
    requires rel in Rels(refs) && rel in files && files[rel] != ""
    ensures var meta := Meta(header, maxChars);
            exists s :: s in LocalSlices(files, refs, paths, maxFiles, maxChars - Sum(meta))
              && s.path == rel && s.text == files[rel]
  {
    var meta := Meta(header, maxChars);
    var budget := maxChars - Sum(meta);
    var listed := Collected(files, refs, {}, budget);
    var hits := NewHits(Scan(paths, maxFiles, {}, budget - Sum(listed)), Rels(refs));
    SumOfThree(meta, listed, hits);
    CollectedComplete(files, refs, {}, budget, rel);
    var s :| s in listed && s.path == rel && s.text == files[rel];
    assert s in listed + hits;
  }

  // ---------------------------------------------------------------------------------------------
  // Merging
  // ---------------------------------------------------------------------------------------------

  predicate IsMeta(s: Slice) {
    s.kind == "meta" || s.path == "meta"
  }

  function MetaOf(slices: seq<Slice>): seq<Slice> {
    if slices == [] then []
    else (if IsMeta(slices[0]) then [slices[0]] else []) + MetaOf(slices[1..])
  }

  function LocalOf(slices: seq<Slice>): seq<Slice> {
    if slices == [] then []
    else (if IsMeta(slices[0]) then [] else [slices[0]]) + LocalOf(slices[1..])
  }

  function Without(slices: seq<Slice>, gone: seq<Slice>): seq<Slice> {
    if slices == [] then []
    else (if slices[0] in gone then [] else [slices[0]]) + Without(slices[1..], gone)
  }

  lemma {:induction false} MetaOfHas(slices: seq<Slice>, s: Slice)
    ensures s in MetaOf(slices) <==> s in slices && IsMeta(s)
  {
    if slices != [] {
      MetaOfHas(slices[1..], s);
      assert slices == [slices[0]] + slices[1..];
    }
  }

  lemma Assoc<T>(a: seq<T>, b: seq<T>, c: seq<T>)
    ensures (a + b) + c == a + (b + c)
  {
  }

  /** A slice is meta by its kind or its path; it goes to one of the two parts. */
  lemma PartsOne(s: Slice)
    ensures var meta := s.kind == "meta" || s.path == "meta";
            MetaOf([s]) == (if meta then [s] else []) && LocalOf([s]) == if meta then [] else [s]
  {
  }

  /** Both parts keep the order of the slices. */
  lemma {:induction false} MetaCat(a: seq<Slice>, b: seq<Slice>)
    ensures MetaOf(a + b) == MetaOf(a) + MetaOf(b)
  {
    if a == [] {
      assert a + b == b;
    } else {
      var first, rest, tail := if IsMeta(a[0]) then [a[0]] else [], MetaOf(a[1..]), MetaOf(b);
      assert (a + b)[0] == a[0] && (a + b)[1..] == a[1..] + b;
      MetaCat(a[1..], b);
      Assoc(first, rest, tail);
    }
  }

  lemma {:induction false} LocalCat(a: seq<Slice>, b: seq<Slice>)
    ensures LocalOf(a + b) == LocalOf(a) + LocalOf(b)
  {
    if a == [] {
      assert a + b == b;
    } else {
      var first, rest, tail := if IsMeta(a[0]) then [] else [a[0]], LocalOf(a[1..]), LocalOf(b);
      assert (a + b)[0] == a[0] && (a + b)[1..] == a[1..] + b;
      LocalCat(a[1..], b);
      Assoc(first, rest, tail);
    }
  }

  /** Taking away what equals a meta slice takes away exactly the meta slices. */
  lemma {:induction false} WithoutMeta(slices: seq<Slice>, meta: seq<Slice>)
    requires forall s :: s in slices ==> (s in meta <==> IsMeta(s))
    ensures Without(slices, meta) == LocalOf(slices)
  {
    if slices != [] {
      assert slices[0] in slices;
      WithoutMeta(slices[1..], meta);
    }
  }

  function Texts(slices: seq<Slice>): seq<string> {
    if slices == [] then []
    else (if slices[0].text != "" then [slices[0].text] else []) + Texts(slices[1..])
  }

  /** A web research channel: its file name, its content if it can be read. */
  datatype Channel = Channel(file: string, content: Option<string>)

  function Chunk(c: Channel): seq<string> {
    if c.content.Some? then ["### " + c.file + "\n\n" + c.content.value] else []
  }

  function Chunks(channels: seq<Channel>): seq<string> {
    if channels == [] then [] else Chunk(channels[0]) + Chunks(channels[1..])
  }

  /** Every text that is not empty is taken, in order, and every channel that can be read. */
  lemma TextsOne(s: Slice)
    ensures Texts([]) == [] && Texts([s]) == if s.text == "" then [] else [s.text]
  {
  }

  lemma {:induction false} TextsCat(a: seq<Slice>, b: seq<Slice>)
    ensures Texts(a + b) == Texts(a) + Texts(b)
  {
    if a == [] {
      assert a + b == b;
    } else {
      var first, rest, tail := if a[0].text != "" then [a[0].text] else [], Texts(a[1..]), Texts(b);
      assert (a + b)[0] == a[0] && (a + b)[1..] == a[1..] + b;
      TextsCat(a[1..], b);
      Assoc(first, rest, tail);
    }
  }

  lemma ChunksOne(c: Channel)
    ensures Chunks([]) == []
    ensures c.content.None? ==> Chunks([c]) == []
    ensures c.content.Some? ==> Chunks([c]) == ["### " + c.file + "\n\n" + c.content.value]
  {
  }

  lemma ChunksCons(c: Channel, rest: seq<Channel>)
    ensures Chunks([c] + rest) == Chunk(c) + Chunks(rest)
  {
    assert ([c] + rest)[1..] == rest;
  }

  lemma {:induction false} ChunksCat(a: seq<Channel>, b: seq<Channel>)
    ensures Chunks(a + b) == Chunks(a) + Chunks(b)
  {
    if a == [] {
      assert a + b == b;
    } else {
      var c, rest := a[0], a[1..];
      assert a == [c] + rest && a + b == [c] + (rest + b);
      ChunksCons(c, rest);
      ChunksCons(c, rest + b);
      ChunksCat(rest, b);
      Assoc(Chunk(c), Chunks(rest), Chunks(b));
    }
  }

  const SEPARATOR := "\n\n---\n\n"
  const META_HEAD := "## Meta\n\n"
  const LOCAL_HEAD := "## Local corpus\n\n"
  const WEB_HEAD := "## Web research\n\n"

  function Part(head: string, text: string): seq<string> {
    if text == "" then [] else [head + text]
  }

  function Render(meta: string, local: string, web: string): string {
    Join(SEPARATOR, Part(META_HEAD, meta) + Part(LOCAL_HEAD, local) + Part(WEB_HEAD, web))
  }

  function MetaText(slices: seq<Slice>): string {
    Join("\n\n", Texts(MetaOf(slices)))
  }

  function LocalText(slices: seq<Slice>): string {
    Join(SEPARATOR, Texts(LocalOf(slices)))
  }

  function WebText(channels: seq<Channel>): string {
    Join("\n\n", Chunks(channels))
  }

  /** One more slice or channel at the end: what it adds to the texts of the three parts. */
  lemma PartsGrow(slices: seq<Slice>, s: Slice)
    requires s.text != ""
    ensures if s.kind == "meta" || s.path == "meta" then
              && LocalText(slices + [s]) == LocalText(slices)
              && MetaText(slices + [s]) ==
                   if Texts(MetaOf(slices)) == [] then s.text else MetaText(slices) + "\n\n" + s.text
            else
              && MetaText(slices + [s]) == MetaText(slices)
              && LocalText(slices + [s]) ==
                   if Texts(LocalOf(slices)) == [] then s.text else LocalText(slices) + "\n\n---\n\n" + s.text
  {
    MetaCat(slices, [s]);
    LocalCat(slices, [s]);
    PartsOne(s);
    TextsOne(s);
    var meta, local := MetaOf(slices), LocalOf(slices);
    if s.kind == "meta" || s.path == "meta" {
      TextsCat(meta, [s]);
      JoinGrows("\n\n", Texts(meta), s.text);
      assert local + [] == local;
    } else {
      TextsCat(local, [s]);
      JoinGrows(SEPARATOR, Texts(local), s.text);
      assert meta + [] == meta;
    }
  }

  lemma JoinGrows(sep: string, parts: seq<string>, last: string)
    ensures Join(sep, parts + [last]) == if parts == [] then last else Join(sep, parts) + sep + last
  {
    if parts == [] {
      assert parts + [last] == [last];
    } else {
      JoinSnoc(sep, parts, last);
    }
  }

  lemma WebGrows(channels: seq<Channel>, c: Channel)
    requires c.content.Some?
    ensures var chunk := "### " + c.file + "\n\n" + c.content.value;
            WebText(channels + [c]) ==
              if Chunks(channels) == [] then chunk else WebText(channels) + "\n\n" + chunk
  {
    ChunksCat(channels, [c]);
    ChunksOne(c);
    JoinGrows("\n\n", Chunks(channels), "### " + c.file + "\n\n" + c.content.value);
  }

  /** What the merge gives without any limit. */
  function Unlimited(slices: seq<Slice>, channels: seq<Channel>): string {
    Render(MetaText(slices), LocalText(slices), WebText(channels))
  }

  function TakeBudget(text: string, budget: int): (r: (string, bool))
    ensures |r.0| <= |text| && |r.0| <= (if budget < 0 then 0 else budget)
    ensures r.1 <==> |r.0| < |text|
  {
    if budget <= 0 then ("", text != "")
    else if |text| <= budget then (text, false)
    else (text[..budget], true)
  }

  function Min(a: int, b: int): int {
    if a <= b then a else b
  }

  datatype MergedCorpus = MergedCorpus(
    text: string,
    truncated: bool,
    metaChars: nat,
    localChars: nat,
    webChars: nat,
    totalChars: nat)

  function PartLength(head: nat, n: nat): nat {
    if n == 0 then 0 else head + n
  }

  function Used(n: nat): nat {
    if n == 0 then 0 else 1
  }

  function RenderedLength(m: nat, l: nat, w: nat): int {
    var parts := Used(m) + Used(l) + Used(w);
    PartLength(|META_HEAD|, m) + PartLength(|LOCAL_HEAD|, l) + PartLength(|WEB_HEAD|, w)
    + if parts == 0 then 0 else |SEPARATOR| * (parts - 1)
  }

  lemma JoinFew(sep: string, a: string, b: string, c: string)
    ensures Join(sep, []) == "" && Join(sep, [a]) == a && |Join(sep, [a, b])| == |a| + |sep| + |b|
    ensures |Join(sep, [a, b, c])| == |a| + |sep| + |b| + |sep| + |c|
  {
    assert [a, b][1..] == [b] && [b, c][1..] == [c];
    var rest := [a, b, c][1..];
    assert rest == [b, c];
    assert Join(sep, rest) == b + sep + Join(sep, [c]);
    assert Join(sep, [a, b, c]) == a + sep + Join(sep, rest);
  }

  /** The parts that are not empty under their headings, in this order, with separators in between. */
  lemma RenderIs(meta: string, local: string, web: string)
    ensures var m := if meta == "" then "" else "## Meta\n\n" + meta;
            var l := if local == "" then "" else "## Local corpus\n\n" + local;
            var w := if web == "" then "" else "## Web research\n\n" + web;
            Render(meta, local, web) ==
              m + ((if meta != "" && (local != "" || web != "") then "\n\n---\n\n" else "")
                   + (l + ((if local != "" && web != "" then "\n\n---\n\n" else "") + w)))
  {
    var m, l, w := Part(META_HEAD, meta), Part(LOCAL_HEAD, local), Part(WEB_HEAD, web);
    JoinTwo(l, w);
    JoinTwo(m, l + w);
    assert m + l + w == m + (l + w);
  }

  /** Joining a list of at most one text and another list. */
  lemma JoinTwo(a: seq<string>, b: seq<string>)
    requires |a| <= 1 && (forall i :: 0 <= i < |b| ==> b[i] != "")
    ensures Join(SEPARATOR, a + b) ==
            (if a == [] then "" else a[0]) + ((if a != [] && b != [] then SEPARATOR else "") + Join(SEPARATOR, b))
  {
    if a == [] {
      assert a + b == b;
    } else if b == [] {
      assert a + b == a;
    } else {
      assert (a + b)[1..] == b;
    }
  }

  lemma RenderLength(meta: string, local: string, web: string)
    ensures |Render(meta, local, web)| == RenderedLength(|meta|, |local|, |web|)
  {
    var m, l, w := META_HEAD + meta, LOCAL_HEAD + local, WEB_HEAD + web;
    JoinFew(SEPARATOR, m, l, w);
    JoinFew(SEPARATOR, m, w, w);
    JoinFew(SEPARATOR, l, w, w);
    JoinFew(SEPARATOR, w, w, w);
    var parts := Part(META_HEAD, meta) + Part(LOCAL_HEAD, local) + Part(WEB_HEAD, web);
    assert parts ==
      if meta == "" && local == "" && web == "" then []
      else if meta == "" && local == "" then [w]
      else if meta == "" && web == "" then [l]
      else if local == "" && web == "" then [m]
      else if meta == "" then [l, w]
      else if local == "" then [m, w]
      else if web == "" then [m, l]
      else [m, l, w];
  }

  lemma HeadLengths()
    ensures |SEPARATOR| == 7
    ensures |META_HEAD| == 9
    ensures |LOCAL_HEAD| == 17
    ensures |WEB_HEAD| == 17
  {
  }

  /** Cutting any part makes the text shorter. */
  lemma CutIsShorter(m: nat, l: nat, w: nat, m': nat, l': nat, w': nat)
    requires m' <= m && l' <= l && w' <= w && m' + l' + w' < m + l + w
    ensures RenderedLength(m', l', w') < RenderedLength(m, l, w)
  {
    HeadLengths();
  }

  method ChunkLoop(channels: seq<Channel>) returns (chunks: seq<string>)
    ensures chunks == Chunks(channels)
  {
    chunks := [];
    for i := 0 to |channels|
      invariant chunks + Chunks(channels[i..]) == Chunks(channels)
    {
      assert channels[i..][1..] == channels[i + 1..];
      if channels[i].content.Some? {
        chunks := chunks + ["### " + channels[i].file + "\n\n" + channels[i].content.value];
      }
    }
  }

  lemma OnlyMeta(slices: seq<Slice>)
    ensures Without(slices, MetaOf(slices)) == LocalOf(slices)
  {
    forall s | s in slices ensures s in MetaOf(slices) <==> IsMeta(s) {
      MetaOfHas(slices, s);
    }
    WithoutMeta(slices, MetaOf(slices));
  }

  function Limit(budget: int): nat {
    if budget < 0 then 0 else budget
  }

  /** What is left of the three parts, each within its own budget and what the parts before it left. */
  function CutTo(meta: string, local: string, web: string,
                 maxChars: int, metaBudget: int, localBudget: int, webBudget: int)
    : (string, string, string)
  {
    var m := TakeBudget(meta, Min(metaBudget, Limit(maxChars))).0;
    var l := TakeBudget(local, Min(localBudget, Limit(maxChars) - |m|)).0;
    var w := TakeBudget(web, Min(webBudget, Limit(maxChars) - |m| - |l|)).0;
    (m, l, w)
  }

  /** What is taken of a part: as much of its start as its own budget and what is left of the limit allow. */
  ghost predicate IsTaken(part: string, text: string, budget: int, left: int) {
    && part <= text
    && |part| == Min(|text|, Min(Limit(budget), Limit(left)))
  }

  lemma CutsAre(meta: string, local: string, web: string,
                maxChars: int, metaBudget: int, localBudget: int, webBudget: int)
    ensures var p := CutTo(meta, local, web, maxChars, metaBudget, localBudget, webBudget);
            && IsTaken(p.0, meta, metaBudget, maxChars)
            && IsTaken(p.1, local, localBudget, Limit(maxChars) - |p.0|)
            && IsTaken(p.2, web, webBudget, Limit(maxChars) - |p.0| - |p.1|)
  {
  }

  ghost predicate WithinBudgets(m: MergedCorpus, maxChars: int, metaBudget: int, localBudget: int, webBudget: int) {
    && |m.text| == m.totalChars <= Limit(maxChars)
    && m.metaChars + m.localChars + m.webChars <= Limit(maxChars)
    && m.metaChars <= Limit(metaBudget) && m.localChars <= Limit(localBudget) && m.webChars <= Limit(webBudget)
  }

  /** Something is cut exactly if a part is over its budget or the parts together are over the limit. */
  lemma CutIff(meta: string, local: string, web: string,
               maxChars: int, metaBudget: int, localBudget: int, webBudget: int)
    ensures var p := CutTo(meta, local, web, maxChars, metaBudget, localBudget, webBudget);
            |p.0| + |p.1| + |p.2| < |meta| + |local| + |web| <==>
            || |meta| > Limit(metaBudget) || |local| > Limit(localBudget) || |web| > Limit(webBudget)
            || |meta| + |local| + |web| > Limit(maxChars)
  {
  }

  lemma TakesPrefix(text: string, budget: int)
    ensures TakeBudget(text, budget).0 <= text
  {
  }

  lemma CutToFits(meta: string, local: string, web: string,
                  maxChars: int, metaBudget: int, localBudget: int, webBudget: int)
    ensures var p := CutTo(meta, local, web, maxChars, metaBudget, localBudget, webBudget);
            && p.0 <= meta && p.1 <= local && p.2 <= web
            && |p.0| + |p.1| + |p.2| <= Limit(maxChars)
            && |p.0| <= Limit(metaBudget) && |p.1| <= Limit(localBudget) && |p.2| <= Limit(webBudget)
  {
    var p := CutTo(meta, local, web, maxChars, metaBudget, localBudget, webBudget);
    TakesPrefix(meta, Min(metaBudget, Limit(maxChars)));
    TakesPrefix(local, Min(localBudget, Limit(maxChars) - |p.0|));
    TakesPrefix(web, Min(webBudget, Limit(maxChars) - |p.0| - |p.1|));
  }

  /** The three parts after their budgets, and whether any was cut. */
  method CutParts(meta: string, local: string, web: string,
                  maxChars: int, metaBudget: int, localBudget: int, webBudget: int)
    returns (metaPart: string, localPart: string, webPart: string, truncated: bool)
    ensures (metaPart, localPart, webPart) == CutTo(meta, local, web, maxChars, metaBudget, localBudget, webBudget)
    ensures truncated <==> |metaPart| < |meta| || |localPart| < |local| || |webPart| < |web|
  {
    ghost var p := CutTo(meta, local, web, maxChars, metaBudget, localBudget, webBudget);
    var remaining := if maxChars > 0 then maxChars else 0;
    var m := TakeBudget(meta, Min(metaBudget, remaining));
    metaPart, truncated := m.0, m.1;
    assert metaPart == p.0;
    remaining := remaining - |metaPart|;
    var l := TakeBudget(local, Min(localBudget, remaining));
    localPart, truncated := l.0, truncated || l.1;
    assert localPart == p.1;
    remaining := remaining - |localPart|;
    var w := TakeBudget(web, Min(webBudget, remaining));
    webPart, truncated := w.0, truncated || w.1;
  }

  /** Of parts cut from the front, the rendering is the unlimited one exactly if nothing was cut. */
  lemma CutRendering(meta: string, local: string, web: string, m: string, l: string, w: string)
    requires m <= meta && l <= local && w <= web
    ensures |m| + |l| + |w| < |meta| + |local| + |web| ==> |Render(m, l, w)| < |Render(meta, local, web)|
    ensures |m| + |l| + |w| == |meta| + |local| + |web| ==> Render(m, l, w) == Render(meta, local, web)
  {
    if |m| + |l| + |w| < |meta| + |local| + |web| {
      RenderLength(m, l, w);
      RenderLength(meta, local, web);
      CutIsShorter(|meta|, |local|, |web|, |m|, |l|, |w|);
    } else {
      assert m == meta && l == local && w == web;
    }
  }

  /** The rendering of the cut parts is no longer than the unlimited one, and shorter exactly if something was cut. */
  lemma CutRendered(meta: string, local: string, web: string,
                    maxChars: int, metaBudget: int, localBudget: int, webBudget: int)
    ensures var p := CutTo(meta, local, web, maxChars, metaBudget, localBudget, webBudget);
            var whole := Render(meta, local, web);
            var text, cut := Render(p.0, p.1, p.2), |p.0| < |meta| || |p.1| < |local| || |p.2| < |web|;
            && |text| <= |whole| && (cut <==> text != whole) && (maxChars < 0 ==> text == "")
            && (cut || |whole| > maxChars <==>
                || |meta| > Limit(metaBudget) || |local| > Limit(localBudget) || |web| > Limit(webBudget)
                || |whole| > maxChars)
  {
    var p := CutTo(meta, local, web, maxChars, metaBudget, localBudget, webBudget);
    CutToFits(meta, local, web, maxChars, metaBudget, localBudget, webBudget);
    CutRendering(meta, local, web, p.0, p.1, p.2);
    CutIff(meta, local, web, maxChars, metaBudget, localBudget, webBudget);
    RenderLength(meta, local, web);
    RenderLength(p.0, p.1, p.2);
  }

  method FinalCut(text: string, truncated: bool, maxChars: int, ghost whole: string) returns (t: string, cut: bool)
    requires |text| <= |whole| && (truncated <==> text != whole) && (maxChars < 0 ==> text == "")
    ensures t == Take(text, maxChars) && |t| <= Limit(maxChars)
    ensures cut <==> t != whole || maxChars < 0
    ensures cut <==> truncated || |whole| > maxChars
  {
    t, cut := text, truncated;
    if |text| > maxChars {
      t := Take(text, maxChars);
      cut := true;
    }
  }

  method MergeParts(meta: string, local: string, web: string,
                    maxChars: int, metaBudget: int, localBudget: int, webBudget: int)
    returns (m: MergedCorpus)
    ensures WithinBudgets(m, maxChars, metaBudget, localBudget, webBudget)
    ensures m.truncated <==> m.text != Render(meta, local, web) || maxChars < 0
    ensures m.truncated <==>
            || |meta| > Limit(metaBudget) || |local| > Limit(localBudget)
            || |web| > Limit(webBudget) || |Render(meta, local, web)| > maxChars
    ensures var p := CutTo(meta, local, web, maxChars, metaBudget, localBudget, webBudget);
            && m.text == Take(Render(p.0, p.1, p.2), maxChars)
            && m.metaChars == |p.0| && m.localChars == |p.1| && m.webChars == |p.2|
  {
    var metaPart, localPart, webPart, cut := CutParts(meta, local, web, maxChars, metaBudget, localBudget, webBudget);
    CutToFits(meta, local, web, maxChars, metaBudget, localBudget, webBudget);
    CutRendered(meta, local, web, maxChars, metaBudget, localBudget, webBudget);
    var text, truncated := FinalCut(Render(metaPart, localPart, webPart), cut, maxChars, Render(meta, local, web));
    m := MergedCorpus(text, truncated, |metaPart|, |localPart|, |webPart|, |text|);
  }

  method JoinParts(slices: seq<Slice>, channels: seq<Channel>) returns (meta: string, local: string, web: string)
    ensures meta == MetaText(slices) && local == LocalText(slices) && web == WebText(channels)
  {
    var metaSlices := MetaOf(slices);
    var localSlices := Without(slices, metaSlices);
    OnlyMeta(slices);
    var chunks := ChunkLoop(channels);
    meta, local, web := Join("\n\n", Texts(metaSlices)), Join(SEPARATOR, Texts(localSlices)), Join("\n\n", chunks);
  }

  /**
   The merged text is within the limit, and it counts as truncated exactly if it is not the unlimited
   one; with a negative limit it always counts as truncated.
   */
  method MergeCorpusForDistill(slices: seq<Slice>, channels: seq<Channel>, maxChars: int,
                               metaBudget: int, localBudget: int, webBudget: int)
    returns (m: MergedCorpus)
    ensures WithinBudgets(m, maxChars, metaBudget, localBudget, webBudget)
    ensures m.truncated <==> m.text != Unlimited(slices, channels) || maxChars < 0
    ensures m.truncated <==>
            || |MetaText(slices)| > Limit(metaBudget) || |LocalText(slices)| > Limit(localBudget)
            || |WebText(channels)| > Limit(webBudget) || |Unlimited(slices, channels)| > maxChars
    ensures var p := CutTo(MetaText(slices), LocalText(slices), WebText(channels),
                           maxChars, metaBudget, localBudget, webBudget);
            && m.text == Take(Render(p.0, p.1, p.2), maxChars)
            && m.metaChars == |p.0| && m.localChars == |p.1| && m.webChars == |p.2|
            && IsTaken(p.0, MetaText(slices), metaBudget, maxChars)
            && IsTaken(p.1, LocalText(slices), localBudget, Limit(maxChars) - |p.0|)
            && IsTaken(p.2, WebText(channels), webBudget, Limit(maxChars) - |p.0| - |p.1|)
  {
    var meta, local, web := JoinParts(slices, channels);
    CutsAre(meta, local, web, maxChars, metaBudget, localBudget, webBudget);
    m := MergeParts(meta, local, web, maxChars, metaBudget, localBudget, webBudget);
  }
}
