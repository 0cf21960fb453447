/** Accumulating quality-controlled observations over many files. */
module ObsoutReader {
  import opened Permutations
  import opened Statistics
  import opened Vectors

  /** One file: the quality flag and every group's value, by location and channel position. */
  datatype File = File(qc: seq<seq<int>>, groups: map<string, seq<Vector>>)

  type Key = (string, int)

  ghost predicate Usable(f: File, group: string, channels: nat) {
    && group in f.groups && |f.groups[group]| == |f.qc|
    && (forall l :: 0 <= l < |f.qc| ==> |f.qc[l]| == channels && |f.groups[group][l]| == channels)
  }

  ghost predicate Complete(f: File, groups: seq<string>, channels: nat) {
    forall g :: g in groups ==> Usable(f, g, channels)
  }

  /** Locations whose flag is zero for a channel. */
  function Passed(qc: seq<seq<int>>, ich: nat): (locations: seq<nat>)
    requires forall l :: 0 <= l < |qc| ==> ich < |qc[l]|
    ensures forall k :: 0 <= k < |locations| ==> locations[k] < |qc|
  {
    if qc == [] then []
    else
      var n := |qc| - 1;
      Passed(qc[..n], ich) + if qc[n][ich] == 0 then [n] else []
  }

  function Column(values: seq<Vector>, locations: seq<nat>, ich: nat): (v: Vector)
    requires forall k :: 0 <= k < |locations| ==> locations[k] < |values| && ich < |values[locations[k]]|
    ensures |v| == |locations| && forall k :: 0 <= k < |v| ==> v[k] == values[locations[k]][ich]
  {
    seq(|locations|, k requires 0 <= k < |locations| => values[locations[k]][ich])
  }

  /** Where an accumulated entry comes from. */
  datatype Origin = Origin(file: nat, location: nat)

  function OriginsOf(file: nat, locations: seq<nat>): (o: seq<Origin>)
    ensures |o| == |locations| && forall k :: 0 <= k < |o| ==> o[k] == Origin(file, locations[k])
  {
    seq(|locations|, k requires 0 <= k < |locations| => Origin(file, locations[k]))
  }

  ghost predicate AllUsable(files: seq<File>, group: string, channels: nat) {
    forall i :: 0 <= i < |files| ==> Usable(files[i], group, channels)
  }

  /** The flags of every file have one entry per channel. */
  ghost predicate Flagged(files: seq<File>, channels: nat) {
    forall i, l :: 0 <= i < |files| && 0 <= l < |files[i].qc| ==> |files[i].qc[l]| == channels
  }

  /** The one selection that every group of a channel goes through. */
  function Origins(files: seq<File>, ich: nat, channels: nat): (o: seq<Origin>)
    requires Flagged(files, channels) && ich < channels
    ensures forall k :: 0 <= k < |o| ==> o[k].file < |files| && o[k].location < |files[o[k].file].qc|
  {
    if files == [] then []
    else
      var n := |files| - 1;
      Origins(files[..n], ich, channels) + OriginsOf(n, Passed(files[n].qc, ich))
  }

  /** What a group's list for a channel holds after the files have been added. */
  function Entries(files: seq<File>, group: string, ich: nat, channels: nat): Vector
    requires AllUsable(files, group, channels) && ich < channels
  {
    if files == [] then []
    else
      var n := |files| - 1;
      Entries(files[..n], group, ich, channels) + Column(files[n].groups[group], Passed(files[n].qc, ich), ich)
  }

  /** The k-th entry of every group comes from the same file and location. */
  lemma {:induction false} EntriesAreAligned(files: seq<File>, group: string, ich: nat, channels: nat)
    requires AllUsable(files, group, channels) && ich < channels
    ensures Flagged(files, channels)
    ensures
      var o, e := Origins(files, ich, channels), Entries(files, group, ich, channels);
      && |e| == |o|
      && forall k :: 0 <= k < |o| ==>
           |files[o[k].file].groups[group]| == |files[o[k].file].qc|
           && |files[o[k].file].groups[group][o[k].location]| == channels
           && e[k] == files[o[k].file].groups[group][o[k].location][ich]
  {
    assert forall i :: 0 <= i < |files| ==> Usable(files[i], group, channels);
    if files != [] {
      EntriesAreAligned(files[..|files| - 1], group, ich, channels);
    }
  }

  /** Exactly the observations that pass quality control are selected. */
  lemma {:induction false} SelectedIffPassed(files: seq<File>, ich: nat, channels: nat, i: nat, l: nat)
    requires Flagged(files, channels) && ich < channels && i < |files| && l < |files[i].qc|
    ensures Origin(i, l) in Origins(files, ich, channels) <==> files[i].qc[l][ich] == 0
  {
    hide Passed, OriginsOf;
    var n := |files| - 1;
    PassedIff(files[n].qc, ich);
    OriginsOfHas(n, Passed(files[n].qc, ich), Origin(i, l));
    if i < n {
      SelectedIffPassed(files[..n], ich, channels, i, l);
    }
  }

  lemma OriginsOfHas(file: nat, locations: seq<nat>, o: Origin)
    ensures o in OriginsOf(file, locations) <==> o.file == file && o.location in locations
  {
    if o.file == file && o.location in locations {
      var k :| 0 <= k < |locations| && locations[k] == o.location;
      assert OriginsOf(file, locations)[k] == o;
    }
  }

  lemma {:induction false} PassedIff(qc: seq<seq<int>>, ich: nat)
    requires forall l :: 0 <= l < |qc| ==> ich < |qc[l]|
    ensures forall l: nat :: l < |qc| ==> (l in Passed(qc, ich) <==> qc[l][ich] == 0)
  {
    if qc != [] {
      PassedIff(qc[..|qc| - 1], ich);
    }
  }

  ghost predicate Earlier(a: Origin, b: Origin) { a.file < b.file || (a.file == b.file && a.location < b.location) }

  lemma {:induction false} PassedAscend(qc: seq<seq<int>>, ich: nat)
    requires forall l :: 0 <= l < |qc| ==> ich < |qc[l]|
    ensures forall i, j :: 0 <= i < j < |Passed(qc, ich)| ==> Passed(qc, ich)[i] < Passed(qc, ich)[j]
  {
    if qc != [] {
      PassedAscend(qc[..|qc| - 1], ich);
    }
  }

  ghost predicate Ascending(o: seq<Origin>) { forall i, j :: 0 <= i < j < |o| ==> Earlier(o[i], o[j]) }

  lemma AscendingConcat(a: seq<Origin>, b: seq<Origin>)
    requires Ascending(a) && Ascending(b)
    requires forall i, j :: 0 <= i < |a| && 0 <= j < |b| ==> a[i].file < b[j].file
    ensures Ascending(a + b)
  {
  }

  /** Each observation is selected once, file by file and in the order of its locations. */
  lemma {:induction false} OriginsAscend(files: seq<File>, ich: nat, channels: nat)
    requires Flagged(files, channels) && ich < channels
    ensures Ascending(Origins(files, ich, channels))
  {
    hide Passed, Ascending;
    if files == [] {
      NoOrigins();
    } else {
      var n := |files| - 1;
      OriginsAscend(files[..n], ich, channels);
      PassedAscend(files[n].qc, ich);
      AscendingIn(n, Passed(files[n].qc, ich));
      AscendingConcat(Origins(files[..n], ich, channels), OriginsOf(n, Passed(files[n].qc, ich)));
    }
  }

  lemma NoOrigins()
    ensures Ascending([])
  {
  }

  lemma AscendingIn(file: nat, locations: seq<nat>)
    requires forall i, j :: 0 <= i < j < |locations| ==> locations[i] < locations[j]
    ensures Ascending(OriginsOf(file, locations))
  {
  }

  // ---- The reader ----

  type Lists = map<Key, Vector>

  function Get(db: Lists, key: Key): Vector { if key in db then db[key] else [] }

  /** The values of one group that pass quality control on one channel. */
  function Selected(f: File, group: string, ich: nat, channels: nat): Vector
    requires Usable(f, group, channels) && ich < channels
  {
    Column(f.groups[group], Passed(f.qc, ich), ich)
  }

  /** The lists after a group's first n channels have been appended. */
  function GroupAdded(db: Lists, f: File, group: string, channels: seq<int>, n: nat): Lists
    requires Usable(f, group, |channels|) && n <= |channels|
  {
    if n == 0 then db
    else
      var before, key := GroupAdded(db, f, group, channels, n - 1), (group, channels[n - 1]);
      before[key := Get(before, key) + Selected(f, group, n - 1, |channels|)]
  }

  /** The lists after a file's first n groups have been appended. */
  function FileAdded(db: Lists, f: File, groups: seq<string>, channels: seq<int>, n: nat): Lists
    requires n <= |groups| && forall g :: 0 <= g < |groups| ==> Usable(f, groups[g], |channels|)
  {
    if n == 0 then db
    else GroupAdded(FileAdded(db, f, groups, channels, n - 1), f, groups[n - 1], channels, |channels|)
  }

  class Reader {
    const channels: seq<int>
    const groups: seq<string>
    var db: Lists

    constructor (channels: seq<int>, groups: seq<string>)
      ensures this.channels == channels && this.groups == groups && db == map[]
    {
      this.channels, this.groups := channels, groups;
      db := map[];
    }

    /** Appends one group of one file, channel by channel. */
    method AddQced(f: File, group: string)
      requires Usable(f, group, |channels|)
      modifies this
      ensures db == GroupAdded(old(db), f, group, channels, |channels|)
    {
      hide Selected, Usable;
      var c := 0;
      while c < |channels|
        invariant 0 <= c <= |channels|
        invariant db == GroupAdded(old(db), f, group, channels, c)
      {
        var key := (group, channels[c]);
        var passed := Selected(f, group, c, |channels|);
        if key !in db {
          db := db[key := passed];
        } else {
          db := db[key := db[key] + passed];
        }
        assert Get(map[], key) + passed == passed;
        c := c + 1;
      }
    }

    /** Appends every group of a file. */
    method AddFile(f: File)
      requires forall g :: 0 <= g < |groups| ==> Usable(f, groups[g], |channels|)
      modifies this
      ensures db == FileAdded(old(db), f, groups, channels, |groups|)
    {
      hide GroupAdded, Usable;
      var g := 0;
      while g < |groups|
        invariant 0 <= g <= |groups|
        invariant db == FileAdded(old(db), f, groups, channels, g)
      {
        AddQced(f, groups[g]);
        g := g + 1;
      }
    }

    /** Adds the files one after the other to an empty reader. */
    method AddFiles(files: seq<File>)
      requires db == map[]
      requires forall i, g :: 0 <= i < |files| && 0 <= g < |groups| ==> Usable(files[i], groups[g], |channels|)
      modifies this
      ensures db == FilesAdded(files, groups, channels)
    {
      hide FileAdded, Usable;
      var i := 0;
      while i < |files|
        invariant 0 <= i <= |files|
        invariant db == FilesAdded(files[..i], groups, channels)
      {
        assert files[..i + 1][..i] == files[..i];
        AddFile(files[i]);
        i := i + 1;
      }
      assert files[..i] == files;
    }

    predicate HasRate(rate: string) reads this {
      forall c :: 0 <= c < |channels| ==> (rate, channels[c]) in db
    }

    /** Adds the mean on file back to the list of each channel. */
    method Restore(rate: string, square: string, lines: seq<(int, real)>)
      requires NoRepeats(channels) && HasRate(rate) && rate != square
      modifies this
      ensures HasRate(rate)
      ensures forall c :: 0 <= c < |channels| ==>
        db[(rate, channels[c])] == Shifted(old(db[(rate, channels[c])]), MeanOnFile(lines, channels[c]))
      ensures forall key: Key :: key.0 != rate && key.0 != square ==> Get(db, key) == Get(old(db), key)
    {
      hide Squared, Shifted, MeanOnFile;
      var c := 0;
      while c < |channels|
        invariant 0 <= c <= |channels| && HasRate(rate)
        invariant forall i :: 0 <= i < c ==>
          db[(rate, channels[i])] == Shifted(old(db[(rate, channels[i])]), MeanOnFile(lines, channels[i]))
        invariant forall i :: c <= i < |channels| ==> db[(rate, channels[i])] == old(db[(rate, channels[i])])
        invariant forall key: Key :: key.0 != rate && key.0 != square ==> Get(db, key) == Get(old(db), key)
      {
        var original := Shifted(db[(rate, channels[c])], MeanOnFile(lines, channels[c]));
        db := db[(rate, channels[c]) := original];
        db := db[(square, channels[c]) := Squared(original)];
        c := c + 1;
      }
    }

    /** Subtracts from the list of each channel its own mean, and keeps its square beside it. */
    method Recentre(rate: string, square: string) returns (means: seq<real>)
      requires NoRepeats(channels) && HasRate(rate) && rate != square
      modifies this
      ensures HasRate(rate) && HasRate(square) && |means| == |channels|
      ensures forall c :: 0 <= c < |channels| ==>
        && means[c] == Mean(old(db[(rate, channels[c])]))
        && db[(rate, channels[c])] == Centred(old(db[(rate, channels[c])]))
        && db[(square, channels[c])] == Squared(Centred(old(db[(rate, channels[c])])))
      ensures forall key: Key :: key.0 != rate && key.0 != square ==> Get(db, key) == Get(old(db), key)
    {
      hide Squared, Shifted, Mean;
      means := [];
      var c := 0;
      while c < |channels|
        invariant 0 <= c <= |channels| && |means| == c && HasRate(rate)
        invariant forall i :: 0 <= i < c ==>
          && (square, channels[i]) in db
          && means[i] == Mean(old(db[(rate, channels[i])]))
          && db[(rate, channels[i])] == Centred(old(db[(rate, channels[i])]))
          && db[(square, channels[i])] == Squared(Centred(old(db[(rate, channels[i])])))
        invariant forall i :: c <= i < |channels| ==> db[(rate, channels[i])] == old(db[(rate, channels[i])])
        invariant forall key: Key :: key.0 != rate && key.0 != square ==> Get(db, key) == Get(old(db), key)
      {
        var original := db[(rate, channels[c])];
        var mean := Mean(original);
        var centred := Shifted(original, -mean);
        db := db[(rate, channels[c]) := centred];
        db := db[(square, channels[c]) := Squared(centred)];
        means := means + [mean];
        c := c + 1;
      }
    }

    /** Restores the lapse rate by the mean on file and recentres it. The recentred list depends on
        the list alone; only the returned means depend on the file. */
    method UpdateLapseRateMean(lines: seq<(int, real)>) returns (means: seq<real>)
      requires NoRepeats(channels) && HasRate(LAPSE_RATE)
      modifies this
      ensures HasRate(LAPSE_RATE) && HasRate(LAPSE_RATE_SQUARED) && |means| == |channels|
      ensures forall c :: 0 <= c < |channels| ==>
        var was := old(db[(LAPSE_RATE, channels[c])]);
        && means[c] == Mean(Shifted(was, MeanOnFile(lines, channels[c])))
        && db[(LAPSE_RATE, channels[c])] == Centred(was)
        && db[(LAPSE_RATE_SQUARED, channels[c])] == Squared(Centred(was))
      ensures Recentred(old(db), db, channels)
    {
      assert LAPSE_RATE != LAPSE_RATE_SQUARED by { assert |LAPSE_RATE| != |LAPSE_RATE_SQUARED|; }
      hide Mean, Squared, Shifted, Centred, MeanOnFile;
      Restore(LAPSE_RATE, LAPSE_RATE_SQUARED, lines);
      means := Recentre(LAPSE_RATE, LAPSE_RATE_SQUARED);
      forall c | 0 <= c < |channels|
        ensures Centred(Shifted(old(db[(LAPSE_RATE, channels[c])]), MeanOnFile(lines, channels[c]))) ==
                Centred(old(db[(LAPSE_RATE, channels[c])]))
      {
        CentredIsCanonical(old(db[(LAPSE_RATE, channels[c])]), MeanOnFile(lines, channels[c]));
      }
    }
  }

  // ---- Recentring the lapse-rate predictor ----

  /** Each channel's lapse rate is centred, its square kept beside it, and all else is as before. */
  ghost predicate Recentred(before: Lists, after: Lists, channels: seq<int>) {
    && (forall c :: 0 <= c < |channels| ==>
          var centred := Centred(Get(before, (LAPSE_RATE, channels[c])));
          && Get(after, (LAPSE_RATE, channels[c])) == centred
          && Get(after, (LAPSE_RATE_SQUARED, channels[c])) == Squared(centred))
    && (forall key: Key :: key.0 != LAPSE_RATE && key.0 != LAPSE_RATE_SQUARED ==> Get(after, key) == Get(before, key))
  }

  const LAPSE_RATE: string := "lapseRatePredictor"
  const LAPSE_RATE_SQUARED: string := "lapseRate_order_2Predictor"

  /** The mean on file for a channel: the last line that names it, else zero. */
  function MeanOnFile(lines: seq<(int, real)>, channel: int): real {
    if lines == [] then 0.0
    else if lines[|lines| - 1].0 == channel then lines[|lines| - 1].1
    else MeanOnFile(lines[..|lines| - 1], channel)
  }

  /** The last line of the file that names a channel counts, and a channel that is not named has mean zero. */
  lemma {:induction false} LastLineCounts(lines: seq<(int, real)>, channel: int, k: int)
    requires -1 <= k < |lines| && forall i :: k < i < |lines| ==> lines[i].0 != channel
    requires k >= 0 ==> lines[k].0 == channel
    ensures MeanOnFile(lines, channel) == if k >= 0 then lines[k].1 else 0.0
  {
    if k < |lines| - 1 {
      LastLineCounts(lines[..|lines| - 1], channel, k);
    }
  }

  lemma {:induction false} GroupAddedElsewhere(db: Lists, f: File, group: string, channels: seq<int>, n: nat, key: Key)
    requires Usable(f, group, |channels|) && n <= |channels|
    requires key.0 != group || key.1 !in channels[..n]
    ensures Get(GroupAdded(db, f, group, channels, n), key) == Get(db, key)
  {
    hide Selected, Usable;
    if n > 0 {
      assert channels[..n] == channels[..n - 1] + [channels[n - 1]];
      GroupAddedElsewhere(db, f, group, channels, n - 1, key);
    }
  }

  lemma {:induction false} GroupAddedGet(db: Lists, f: File, group: string, channels: seq<int>, n: nat, c: nat)
    requires Usable(f, group, |channels|) && c < n <= |channels| && NoRepeats(channels)
    ensures Get(GroupAdded(db, f, group, channels, n), (group, channels[c])) ==
            Get(db, (group, channels[c])) + Selected(f, group, c, |channels|)
  {
    hide Selected, Usable, Get;
    var key := (group, channels[n - 1]);
    var before := GroupAdded(db, f, group, channels, n - 1);
    if c < n - 1 {
      GroupAddedGet(db, f, group, channels, n - 1, c);
      GetUpdated(before, key, Get(before, key) + Selected(f, group, n - 1, |channels|), (group, channels[c]));
    } else {
      GroupAddedElsewhere(db, f, group, channels, n - 1, key);
      GetUpdated(before, key, Get(before, key) + Selected(f, group, n - 1, |channels|), key);
    }
  }

  lemma GetUpdated(db: Lists, key: Key, v: Vector, other: Key)
    ensures Get(db[key := v], other) == if other == key then v else Get(db, other)
  {
  }

  lemma {:induction false} FileAddedGet(db: Lists, f: File, groups: seq<string>, channels: seq<int>, n: nat, g: nat,
                                        c: nat)
    requires n <= |groups| && (forall i :: 0 <= i < |groups| ==> Usable(f, groups[i], |channels|))
    requires NoRepeats(channels) && NoRepeats(groups) && g < |groups| && c < |channels|
    ensures
      var key := (groups[g], channels[c]);
      Get(FileAdded(db, f, groups, channels, n), key) ==
        Get(db, key) + if g < n then Selected(f, groups[g], c, |channels|) else []
  {
    hide Selected, Usable, GroupAdded, Get;
    if n > 0 {
      var key := (groups[g], channels[c]);
      FileAddedGet(db, f, groups, channels, n - 1, g, c);
      var before := FileAdded(db, f, groups, channels, n - 1);
      if g == n - 1 {
        GroupAddedGet(before, f, groups[g], channels, |channels|, c);
      } else {
        GroupAddedElsewhere(before, f, groups[n - 1], channels, |channels|, key);
      }
    }
  }

  lemma {:induction false} GroupAddedHas(db: Lists, f: File, group: string, channels: seq<int>, n: nat)
    requires Usable(f, group, |channels|) && n <= |channels|
    ensures db.Keys <= GroupAdded(db, f, group, channels, n).Keys
    ensures forall c :: 0 <= c < n ==> (group, channels[c]) in GroupAdded(db, f, group, channels, n)
  {
    hide Selected, Usable, Get;
    if n > 0 {
      GroupAddedHas(db, f, group, channels, n - 1);
    }
  }

  /** A file leaves a list for each of its groups and each channel. */
  lemma {:induction false} FileAddedHas(db: Lists, f: File, groups: seq<string>, channels: seq<int>, n: nat)
    requires n <= |groups| && forall g :: 0 <= g < |groups| ==> Usable(f, groups[g], |channels|)
    ensures forall g, c :: 0 <= g < n && 0 <= c < |channels| ==>
      (groups[g], channels[c]) in FileAdded(db, f, groups, channels, n)
  {
    hide Usable, GroupAdded;
    if n > 0 {
      FileAddedHas(db, f, groups, channels, n - 1);
      GroupAddedHas(FileAdded(db, f, groups, channels, n - 1), f, groups[n - 1], channels, |channels|);
    }
  }

  /** The lists after a sequence of files. */
  function FilesAdded(files: seq<File>, groups: seq<string>, channels: seq<int>): Lists
    requires forall i, g :: 0 <= i < |files| && 0 <= g < |groups| ==> Usable(files[i], groups[g], |channels|)
  {
    if files == [] then map[]
    else FileAdded(FilesAdded(files[..|files| - 1], groups, channels), files[|files| - 1], groups, channels, |groups|)
  }

  /** After any files, every group's list for a channel is exactly its quality-controlled entries. */
  lemma {:induction false} ListsAreEntries(files: seq<File>, groups: seq<string>, channels: seq<int>, g: nat, c: nat)
    requires forall i, k :: 0 <= i < |files| && 0 <= k < |groups| ==> Usable(files[i], groups[k], |channels|)
    requires NoRepeats(channels) && NoRepeats(groups) && g < |groups| && c < |channels|
    ensures AllUsable(files, groups[g], |channels|)
    ensures Get(FilesAdded(files, groups, channels), (groups[g], channels[c])) ==
            Entries(files, groups[g], c, |channels|)
  {
    hide Column, Passed, FileAdded, Usable;
    if files != [] {
      var n := |files| - 1;
      ListsAreEntries(files[..n], groups, channels, g, c);
      FileAddedGet(FilesAdded(files[..n], groups, channels), files[n], groups, channels, |groups|, g, c);
    }
  }

  /** The value passed quality control and is the group's own at that file and location. */
  ghost predicate Sourced(files: seq<File>, group: string, ich: nat, o: Origin, x: real) {
    && o.file < |files|
    && var f := files[o.file];
       && group in f.groups && o.location < |f.qc| == |f.groups[group]|
       && ich < |f.qc[o.location]| == |f.groups[group][o.location]|
       && f.qc[o.location][ich] == 0 && x == f.groups[group][o.location][ich]
  }

  /** After any files, entry k of every group of a channel, predictor or observation, comes from
      one and the same file and location. */
  lemma ListsAreAligned(files: seq<File>, groups: seq<string>, channels: seq<int>, g: nat, c: nat, k: nat)
    requires forall i, j :: 0 <= i < |files| && 0 <= j < |groups| ==> Usable(files[i], groups[j], |channels|)
    requires NoRepeats(channels) && NoRepeats(groups) && g < |groups| && c < |channels|
    ensures Flagged(files, |channels|)
    ensures
      var o := Origins(files, c, |channels|);
      var list := Get(FilesAdded(files, groups, channels), (groups[g], channels[c]));
      |list| == |o| && (k < |o| ==> Sourced(files, groups[g], c, o[k], list[k]))
  {
    hide Origins, Entries, FilesAdded;
    ListsAreEntries(files, groups, channels, g, c);
    EntriesAreAligned(files, groups[g], c, |channels|);
    var o := Origins(files, c, |channels|);
    if k < |o| {
      SelectedIffPassed(files, c, |channels|, o[k].file, o[k].location);
      assert Origin(o[k].file, o[k].location) == o[k];
    }
  }
}
