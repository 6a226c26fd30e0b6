/** `get_loaders(config, idx)` (src/get_modules/get_loaders.py:7-70): the
    choice of dataset, the five-fold split of its indices into contiguous
    chunks with one chunk held out for testing, the train/test sizes of the
    random split, and the two ways the function fails on an unbound local.
    A split is described by the dataset indices it selects; the
    `DataLoader`s built from it are not modelled. */
module Loaders {
  import opened Options

  /** What the model needs of a dataset object: its question and response
      counts and its length. */
  datatype Dataset = Dataset(numQ: nat, numR: nat, length: nat)

  datatype Config = Config(datasetName: string, fivefold: bool)

  /** The train and test sets: index lists for the five-fold split, sizes
      for `random_split`. */
  datatype Split =
    | Folds(train: seq<nat>, test: seq<nat>)
    | RandomSizes(trainSize: nat, testSize: int)

  datatype Loaders = Loaders(split: Split, numQ: nat, numR: nat)

  /** The `UnboundLocalError`s: `dataset` at line 18 after an unknown name,
      `train_dataset` at line 58 after a fold index outside 0..4. */
  datatype LoaderError = DatasetUnbound | TrainDatasetUnbound

  /** Lines 10-15; the two dataset objects are inputs. */
  function SelectDataset(name: string, assist2015: Dataset, assist2009: Dataset): (r: Option<Dataset>)
    ensures r.Some? <==> name == "assist2015" || name == "assist2009"
    ensures name == "assist2015" ==> r == Some(assist2015)
    ensures name == "assist2009" ==> r == Some(assist2009)
  {
    if name == "assist2015" then Some(assist2015)
    else if name == "assist2009" then Some(assist2009)
    else None
  }

  /** `range(lo, hi)`; empty when `hi <= lo`. */
  function Range(lo: nat, hi: nat): (r: seq<nat>)
    ensures |r| == if lo <= hi then hi - lo else 0
    ensures forall k :: 0 <= k < |r| ==> r[k] == lo + k
  {
    if lo < hi then seq(hi - lo, k requires 0 <= k < hi - lo => lo + k) else []
  }

  /** The chunk boundaries `0, b1, b2, b3, b4, len` of lines 23-27, where
      `cuts` holds the four values `int(len(dataset) * 0.2k)`. */
  function Bounds(len: nat, cuts: seq<nat>): (b: seq<nat>)
    requires |cuts| == 4
    ensures |b| == 6 && b[0] == 0 && b[5] == len
  {
    [0] + cuts + [len]
  }

  /** The five `Subset(dataset, range(..))` chunks of lines 23-27. */
  function Chunks(len: nat, cuts: seq<nat>): (chunks: seq<seq<nat>>)
    requires |cuts| == 4
    ensures |chunks| == 5
  {
    var b := Bounds(len, cuts);
    seq(5, k requires 0 <= k < 5 => Range(b[k], b[k + 1]))
  }

  /** `ConcatDataset(chunks)`: the chunks' indices one after the other. */
  function Concat(chunks: seq<seq<nat>>): seq<nat>
    decreases |chunks|
  {
    if chunks == [] then [] else chunks[0] + Concat(chunks[1..])
  }

  /** `ConcatDataset` holds an index exactly when one of its chunks does. */
  lemma {:induction false} ConcatMembers(chunks: seq<seq<nat>>, x: nat)
    ensures x in Concat(chunks) <==> exists k :: 0 <= k < |chunks| && x in chunks[k]
    decreases |chunks|
  {
    if chunks != [] {
      ConcatMembers(chunks[1..], x);
      assert forall k :: 1 <= k < |chunks| ==> chunks[k] == chunks[1..][k - 1];
      if x in Concat(chunks[1..]) {
        var k :| 0 <= k < |chunks[1..]| && x in chunks[1..][k];
        assert x in chunks[k + 1];
      }
    }
  }

  /** Lines 31-45: the `(train, test)` pair of fold `idx`; `None` where no
      branch matches and `train_dataset` stays unbound. */
  function FoldSelect(chunks: seq<seq<nat>>, idx: Option<int>): (r: Option<(seq<nat>, seq<nat>)>)
    requires |chunks| == 5
    ensures r.Some? <==> idx.Some? && 0 <= idx.value < 5
    ensures r.Some? ==> r.value.1 == chunks[idx.value]
  {
    if idx == Some(0) then Some((Concat([chunks[1], chunks[2], chunks[3], chunks[4]]), chunks[0]))
    else if idx == Some(1) then Some((Concat([chunks[0], chunks[2], chunks[3], chunks[4]]), chunks[1]))
    else if idx == Some(2) then Some((Concat([chunks[0], chunks[1], chunks[3], chunks[4]]), chunks[2]))
    else if idx == Some(3) then Some((Concat([chunks[0], chunks[1], chunks[2], chunks[4]]), chunks[3]))
    else if idx == Some(4) then Some((Concat([chunks[0], chunks[1], chunks[2], chunks[3]]), chunks[4]))
    else None
  }

  /** `get_loaders(config, idx)`; `cuts` are the fold boundaries and
      `trainSize` the `int(len(dataset) * config.train_ratio)` of line 48,
      both computed in floating point from the chosen dataset's length. */
  function GetLoaders(config: Config, idx: Option<int>, assist2015: Dataset, assist2009: Dataset,
                      cuts: seq<nat>, trainSize: nat): (r: Result<Loaders, LoaderError>)
    requires |cuts| == 4
    ensures r.Err? <==> SelectDataset(config.datasetName, assist2015, assist2009).None?
                        || (config.fivefold && !(idx.Some? && 0 <= idx.value < 5))
    ensures r.Ok? ==> (r.value.split.Folds? <==> config.fivefold)
  {
    match SelectDataset(config.datasetName, assist2015, assist2009)
    case None => Err(DatasetUnbound)
    case Some(dataset) =>
      if config.fivefold then
        match FoldSelect(Chunks(dataset.length, cuts), idx)
        case None => Err(TrainDatasetUnbound)
        case Some(sets) => Ok(Loaders(Folds(sets.0, sets.1), dataset.numQ, dataset.numR))
      else
        Ok(Loaders(RandomSizes(trainSize, dataset.length - trainSize), dataset.numQ, dataset.numR))
  }

  // ---------------------------------------------------------------- failure paths and pass-through

  /** The function fails at line 18 exactly when the name is neither
      `"assist2015"` nor `"assist2009"`. */
  lemma UnknownDatasetFails(config: Config, idx: Option<int>, assist2015: Dataset, assist2009: Dataset,
                            cuts: seq<nat>, trainSize: nat)
    requires |cuts| == 4
    ensures GetLoaders(config, idx, assist2015, assist2009, cuts, trainSize) == Err(DatasetUnbound)
            <==> config.datasetName != "assist2015" && config.datasetName != "assist2009"
  {
  }

  /** With a known dataset and `fivefold` set, the function fails at line 58
      exactly when `idx` is not one of 0..4 (`None` included). */
  lemma BadFoldFails(config: Config, idx: Option<int>, assist2015: Dataset, assist2009: Dataset,
                     cuts: seq<nat>, trainSize: nat)
    requires |cuts| == 4 && config.fivefold
    requires config.datasetName == "assist2015" || config.datasetName == "assist2009"
    ensures GetLoaders(config, idx, assist2015, assist2009, cuts, trainSize) == Err(TrainDatasetUnbound)
            <==> !(idx.Some? && 0 <= idx.value < 5)
  {
  }

  /** A successful call returns the chosen dataset's `num_q` and `num_r`
      (lines 18-19, 70). */
  lemma CountsPassThrough(config: Config, idx: Option<int>, assist2015: Dataset, assist2009: Dataset,
                          cuts: seq<nat>, trainSize: nat)
    requires |cuts| == 4
    ensures var r := GetLoaders(config, idx, assist2015, assist2009, cuts, trainSize);
      r.Ok? ==> var d := SelectDataset(config.datasetName, assist2015, assist2009);
        d.Some? && r.value.numQ == d.value.numQ && r.value.numR == d.value.numR
  {
  }

  /** Without `fivefold` the two sizes handed to `random_split` add up to
      the dataset's length (lines 48-49). */
  lemma RandomSizesSum(config: Config, idx: Option<int>, assist2015: Dataset, assist2009: Dataset,
                       cuts: seq<nat>, trainSize: nat)
    requires |cuts| == 4 && !config.fivefold
    requires config.datasetName == "assist2015" || config.datasetName == "assist2009"
    ensures var r := GetLoaders(config, idx, assist2015, assist2009, cuts, trainSize);
      var d := SelectDataset(config.datasetName, assist2015, assist2009).value;
      && r.Ok? && r.value.split.RandomSizes?
      && r.value.split.trainSize == trainSize
      && r.value.split.trainSize + r.value.split.testSize == d.length
  {
  }

  // ---------------------------------------------------------------- the five-fold rule

  /** Fold `k` tests on chunk `k` and trains on the other four chunks in
      ascending order: the if/elif chain agrees with this one rule. */
  lemma FoldSelectRule(chunks: seq<seq<nat>>, k: nat)
    requires |chunks| == 5 && k < 5
    ensures FoldSelect(chunks, Some(k)) == Some((Concat(chunks[..k] + chunks[k + 1..]), chunks[k]))
  {
    var others := chunks[..k] + chunks[k + 1..];
    if k == 0 {
      assert others == [chunks[1], chunks[2], chunks[3], chunks[4]];
    } else if k == 1 {
      assert others == [chunks[0], chunks[2], chunks[3], chunks[4]];
    } else if k == 2 {
      assert others == [chunks[0], chunks[1], chunks[3], chunks[4]];
    } else if k == 3 {
      assert others == [chunks[0], chunks[1], chunks[2], chunks[4]];
    } else {
      assert others == [chunks[0], chunks[1], chunks[2], chunks[3]];
    }
  }

  /** The boundaries the source produces: `int(len * 0.2k)` never decreases
      in `k` and stays within `[0, len]`. */
  predicate Ordered(len: nat, cuts: seq<nat>)
  {
    |cuts| == 4 && cuts[0] <= cuts[1] <= cuts[2] <= cuts[3] <= len
  }

  lemma RangeAppend(lo: nat, mid: nat, hi: nat)
    requires lo <= mid <= hi
    ensures Range(lo, mid) + Range(mid, hi) == Range(lo, hi)
  {
    var joined := Range(lo, mid) + Range(mid, hi);
    assert |joined| == |Range(lo, hi)|;
    forall k | 0 <= k < |joined|
      ensures joined[k] == Range(lo, hi)[k]
    {
      if k < mid - lo {
        assert joined[k] == Range(lo, mid)[k];
      } else {
        assert joined[k] == Range(mid, hi)[k - (mid - lo)];
      }
    }
  }

  lemma {:induction false} ConcatAppend(a: seq<seq<nat>>, b: seq<seq<nat>>)
    ensures Concat(a + b) == Concat(a) + Concat(b)
    decreases |a|
  {
    if a == [] {
      assert a + b == b;
    } else {
      assert (a + b)[0] == a[0];
      assert (a + b)[1..] == a[1..] + b;
      ConcatAppend(a[1..], b);
    }
  }

  lemma ConcatSingle(chunk: seq<nat>)
    ensures Concat([chunk]) == chunk
  {
    var single: seq<seq<nat>> := [chunk];
    assert single[1..] == [];
  }

  /** The first `j` chunks together are the indices below boundary `j`. */
  lemma {:induction false} ChunkPrefix(len: nat, cuts: seq<nat>, j: nat)
    requires Ordered(len, cuts) && j <= 5
    ensures Concat(Chunks(len, cuts)[..j]) == Range(0, Bounds(len, cuts)[j])
  {
    var chunks, b := Chunks(len, cuts), Bounds(len, cuts);
    if j == 0 {
      assert chunks[..0] == [];
    } else {
      ChunkPrefix(len, cuts, j - 1);
      assert chunks[..j] == chunks[..j - 1] + [chunks[j - 1]];
      ConcatAppend(chunks[..j - 1], [chunks[j - 1]]);
      ConcatSingle(chunks[j - 1]);
      assert b[j - 1] <= b[j];
      RangeAppend(0, b[j - 1], b[j]);
    }
  }

  /** The chunks from `j` on are the indices from boundary `j` to `len`. */
  lemma {:induction false} ChunkSuffix(len: nat, cuts: seq<nat>, j: nat)
    requires Ordered(len, cuts) && j <= 5
    ensures Concat(Chunks(len, cuts)[j..]) == Range(Bounds(len, cuts)[j], len)
    decreases 5 - j
  {
    var chunks, b := Chunks(len, cuts), Bounds(len, cuts);
    if j == 5 {
      assert chunks[5..] == [];
    } else {
      var lo, mid := b[j], b[j + 1];
      assert lo <= mid <= len;
      var rest := chunks[j + 1..];
      assert Concat(chunks[j..]) == Range(lo, mid) + Concat(rest) by {
        assert chunks[j..] == [chunks[j]] + rest;
        ConcatAppend([chunks[j]], rest);
        ConcatSingle(chunks[j]);
      }
      assert Concat(rest) == Range(mid, len) by {
        ChunkSuffix(len, cuts, j + 1);
      }
      RangeAppend(lo, mid, len);
    }
  }

  /** Fold `k` of a dataset of `len` items, for ordered boundaries: the test
      set is the range `[b_k, b_(k+1))` and the train set is everything
      below `b_k` followed by everything from `b_(k+1)`, in index order. */
  lemma FoldSets(len: nat, cuts: seq<nat>, k: nat)
    requires Ordered(len, cuts) && k < 5
    ensures var b := Bounds(len, cuts);
      FoldSelect(Chunks(len, cuts), Some(k)) == Some((Range(0, b[k]) + Range(b[k + 1], len), Range(b[k], b[k + 1])))
  {
    var chunks := Chunks(len, cuts);
    FoldSelectRule(chunks, k);
    ConcatAppend(chunks[..k], chunks[k + 1..]);
    ChunkPrefix(len, cuts, k);
    ChunkSuffix(len, cuts, k + 1);
  }

  /** For ordered boundaries and a fold index in 0..4, every index of the
      dataset lands in exactly one of train and test, nothing else does,
      and the two sizes add up to the dataset's length. */
  lemma FoldPartition(config: Config, idx: Option<int>, assist2015: Dataset, assist2009: Dataset,
                      cuts: seq<nat>, trainSize: nat)
    requires |cuts| == 4 && config.fivefold && idx.Some? && 0 <= idx.value < 5
    requires config.datasetName == "assist2015" || config.datasetName == "assist2009"
    requires Ordered(SelectDataset(config.datasetName, assist2015, assist2009).value.length, cuts)
    ensures var r := GetLoaders(config, idx, assist2015, assist2009, cuts, trainSize);
      var len := SelectDataset(config.datasetName, assist2015, assist2009).value.length;
      && r.Ok? && r.value.split.Folds?
      && multiset(r.value.split.train) + multiset(r.value.split.test) == multiset(Range(0, len))
      && (forall x :: x in r.value.split.train ==> x !in r.value.split.test)
      && |r.value.split.train| + |r.value.split.test| == len
  {
    var len := SelectDataset(config.datasetName, assist2015, assist2009).value.length;
    var k := idx.value as nat;
    var b := Bounds(len, cuts);
    FoldSets(len, cuts, k);
    assert b[k] <= b[k + 1] <= len;
    HoldOut(b[k], b[k + 1], len);
  }

  /** Holding out `[lo, hi)` of `[0, len)`: the rest and the held-out range
      share no index and together hold each index of `[0, len)` once. */
  lemma HoldOut(lo: nat, hi: nat, len: nat)
    requires lo <= hi <= len
    ensures var rest, held := Range(0, lo) + Range(hi, len), Range(lo, hi);
      && multiset(rest) + multiset(held) == multiset(Range(0, len))
      && (forall x :: x in rest ==> x !in held)
      && |rest| + |held| == len
  {
    var rest, held := Range(0, lo) + Range(hi, len), Range(lo, hi);
    RangeAppend(0, lo, hi);
    RangeAppend(0, hi, len);
    assert multiset(Range(0, lo) + held + Range(hi, len)) == multiset(Range(0, len));
    forall x | x in rest
      ensures x !in held
    {
      assert x < lo || hi <= x;
    }
  }

  /** The test set of fold `k` is chunk `k`, and the train set lists its
      indices in increasing order, as the dataset does. */
  lemma FoldOrder(len: nat, cuts: seq<nat>, k: nat)
    requires Ordered(len, cuts) && k < 5
    ensures var sets := FoldSelect(Chunks(len, cuts), Some(k)).value;
      && sets.1 == Chunks(len, cuts)[k]
      && forall p, q :: 0 <= p < q < |sets.0| ==> sets.0[p] < sets.0[q]
  {
    var b := Bounds(len, cuts);
    var lo, hi := b[k], b[k + 1];
    assert lo <= hi <= len;
    var train := FoldSelect(Chunks(len, cuts), Some(k)).value.0;
    assert train == Range(0, lo) + Range(hi, len) by {
      FoldSets(len, cuts, k);
    }
    forall p, q | 0 <= p < q < |train|
      ensures train[p] < train[q]
    {
      assert train[p] == if p < lo then p else hi + (p - lo);
      assert train[q] == if q < lo then q else hi + (q - lo);
    }
  }
}
