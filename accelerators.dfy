/**
 * Normalisation of the `machine_accelerators` setting: split on commas, trim
 * blanks from every piece that is not literally empty, and join again.
 */
module Accelerators {
  import opened GoStrings
  import opened Sections

  /** The cut set `"\r\t\n "` used to trim each piece. */
  const Blanks: set<char> := {'\r', '\t', '\n', ' '}
  const Commas: set<char> := {','}

  predicate CommaFree(ks: seq<string>) {
    forall i :: 0 <= i < |ks| ==> ',' !in ks[i]
  }

  /** Neither the first nor the last character is a blank. */
  predicate NoEdgeBlanks(k: string) {
    k == [] || (k[0] !in Blanks && k[|k| - 1] !in Blanks)
  }

  /** No entry starts or ends with a blank. */
  predicate EdgeClean(ks: seq<string>) {
    forall i :: 0 <= i < |ks| ==> NoEdgeBlanks(ks[i])
  }

  /** The pieces that are not literally empty, each trimmed of blanks, in their original order. */
  function Kept(pieces: seq<string>): (ks: seq<string>)
    ensures |ks| <= |pieces|
    ensures EdgeClean(ks)
  {
    if |pieces| == 0 then []
    else
      var init := Kept(pieces[..|pieces| - 1]);
      var last := pieces[|pieces| - 1];
      if last == "" then init
      else
        var k := Trim(last, Blanks);
        EdgeCleanSnoc(init, k);
        init + [k]
  }

  lemma EdgeCleanSnoc(ks: seq<string>, k: string)
    requires EdgeClean(ks) && NoEdgeBlanks(k)
    ensures EdgeClean(ks + [k])
  {
    forall i | 0 <= i < |ks + [k]| ensures NoEdgeBlanks((ks + [k])[i]) {
      if i < |ks| {
        assert (ks + [k])[i] == ks[i];
      }
    }
  }

  /** Trimming blanks adds no comma, so comma-free pieces give comma-free kept entries. */
  lemma {:induction false} KeptCommaFree(pieces: seq<string>)
    requires CommaFree(pieces)
    ensures CommaFree(Kept(pieces))
  {
    if |pieces| > 0 {
      var init := pieces[..|pieces| - 1];
      var last := pieces[|pieces| - 1];
      PrefixKeeps(pieces, |pieces| - 1);
      KeptCommaFree(init);
      TrimAbsent(last, Blanks, ',');
    }
  }

  /** Every entry followed by a comma: the string `machineAccelerators`'s loop accumulates. */
  function Terminated(ks: seq<string>): string
  {
    if |ks| == 0 then "" else Terminated(ks[..|ks| - 1]) + ks[|ks| - 1] + [',']
  }

  function DropLeadingEmpty(ks: seq<string>): (r: seq<string>)
    ensures |r| <= |ks| && r == ks[|ks| - |r|..]
    ensures r == [] || r[0] != ""
    ensures forall i :: 0 <= i < |ks| - |r| ==> ks[i] == ""
  {
    if |ks| > 0 && ks[0] == "" then DropLeadingEmpty(ks[1..]) else ks
  }

  function DropTrailingEmpty(ks: seq<string>): (r: seq<string>)
    ensures |r| <= |ks| && r == ks[..|r|]
    ensures r == [] || r[|r| - 1] != ""
    ensures forall i :: |r| <= i < |ks| ==> ks[i] == ""
  {
    if |ks| > 0 && ks[|ks| - 1] == "" then DropTrailingEmpty(ks[..|ks| - 1]) else ks
  }

  /**
   * The entries of the normalised list: the kept pieces without the empty
   * entries at either end. Empty entries in the middle stay.
   */
  function AcceleratorEntries(raw: string): (es: seq<string>)
    ensures CommaFree(es)
    ensures EdgeClean(es)
    ensures es == [] || (es[0] != "" && es[|es| - 1] != "")
  {
    var ks := Kept(Split(raw, ','));
    KeptCommaFree(Split(raw, ','));
    var l := DropLeadingEmpty(ks);
    SuffixKeeps(ks, |ks| - |l|);
    var es := DropTrailingEmpty(l);
    PrefixKeeps(l, |es|);
    es
  }

  /** A suffix of comma-free, edge-clean entries is comma-free and edge-clean. */
  lemma SuffixKeeps(ks: seq<string>, lo: nat)
    requires lo <= |ks|
    ensures CommaFree(ks) ==> CommaFree(ks[lo..])
    ensures EdgeClean(ks) ==> EdgeClean(ks[lo..])
  {
    assert forall i :: 0 <= i < |ks| - lo ==> ks[lo..][i] == ks[lo + i];
  }

  /** A prefix of comma-free, edge-clean entries is comma-free and edge-clean. */
  lemma PrefixKeeps(ks: seq<string>, hi: nat)
    requires hi <= |ks|
    ensures CommaFree(ks) ==> CommaFree(ks[..hi])
    ensures EdgeClean(ks) ==> EdgeClean(ks[..hi])
  {
    assert forall i :: 0 <= i < hi ==> ks[..hi][i] == ks[i];
  }

  /** The reference definition of the normalised accelerator list. */
  function NormalizedAccelerators(raw: string): string
  {
    Join(AcceleratorEntries(raw), ',')
  }

  /** `hypervisor.machineAccelerators`: its loop over the comma-separated pieces. */
  method MachineAccelerators(h: Hypervisor) returns (r: string)
    ensures r == NormalizedAccelerators(h.machineAccelerators)
  {
    var accelerators := Split(h.machineAccelerators, ',');
    var acc := "";
    for i := 0 to |accelerators|
      invariant acc == Terminated(Kept(accelerators[..i]))
    {
      AccumulateStep(accelerators, i);
      if accelerators[i] != "" {
        acc := acc + Trim(accelerators[i], Blanks) + [','];
      }
    }
    assert accelerators[..|accelerators|] == accelerators;
    r := Trim(acc, Commas);
    NormalizedIsTrimmedAccumulation(h.machineAccelerators);
  }

  /** The reference definition agrees with trimming commas off the accumulated string. */
  lemma NormalizedIsTrimmedAccumulation(raw: string)
    ensures NormalizedAccelerators(raw) == Trim(Terminated(Kept(Split(raw, ','))), Commas)
  {
    var pieces := Split(raw, ',');
    assert CommaFree(pieces);
    KeptCommaFree(pieces);
    TrimTerminated(Kept(pieces));
  }

  /** One iteration of `machineAccelerators`'s loop extends the accumulated string by the next kept piece. */
  lemma AccumulateStep(pieces: seq<string>, i: nat)
    requires i < |pieces|
    ensures Terminated(Kept(pieces[..i + 1]))
         == Terminated(Kept(pieces[..i])) + (if pieces[i] != "" then Trim(pieces[i], Blanks) + [','] else "")
  {
    var pre, p := pieces[..i], pieces[i];
    assert pieces[..i + 1] == pre + [p];
    KeptSnoc(pre, p);
    var k := Kept(pre);
    if p != "" {
      TerminatedSnoc(k, Trim(p, Blanks));
    } else {
      assert k + [] == k;
    }
  }

  lemma KeptSnoc(pieces: seq<string>, p: string)
    ensures Kept(pieces + [p]) == Kept(pieces) + (if p != "" then [Trim(p, Blanks)] else [])
  {
    assert (pieces + [p])[..|pieces|] == pieces;
  }

  lemma TerminatedSnoc(ks: seq<string>, k: string)
    ensures Terminated(ks + [k]) == Terminated(ks) + k + [',']
  {
    assert (ks + [k])[..|ks|] == ks;
  }

  lemma {:induction false} TerminatedCons(k: string, ks: seq<string>)
    ensures Terminated([k] + ks) == k + [','] + Terminated(ks)
  {
    if |ks| > 0 {
      var init := ks[..|ks| - 1];
      assert ([k] + ks)[..|ks|] == [k] + init;
      TerminatedCons(k, init);
    }
  }

  lemma {:induction false} TerminatedJoin(ks: seq<string>)
    requires |ks| >= 1
    ensures Terminated(ks) == Join(ks, ',') + [',']
  {
    if |ks| > 1 {
      TerminatedJoin(ks[..|ks| - 1]);
    }
  }

  /** Cutting leading commas off the accumulated string drops the leading empty entries. */
  lemma {:induction false} TrimLeftTerminated(ks: seq<string>)
    requires CommaFree(ks)
    ensures TrimLeft(Terminated(ks), Commas) == Terminated(DropLeadingEmpty(ks))
  {
    if |ks| > 0 {
      TerminatedCons(ks[0], ks[1..]);
      assert [ks[0]] + ks[1..] == ks;
      var rest := Terminated(ks[1..]);
      if ks[0] == "" {
        assert (ks[0] + [','] + rest)[1..] == rest;
        SuffixKeeps(ks, 1);
        TrimLeftTerminated(ks[1..]);
      } else {
        assert ',' !in ks[0];
        assert Terminated(ks)[0] == ks[0][0];
      }
    }
  }

  /** Cutting trailing commas off the accumulated string gives the join without trailing empty entries. */
  lemma {:induction false} TrimRightTerminated(ks: seq<string>)
    requires CommaFree(ks)
    ensures TrimRight(Terminated(ks), Commas) == Join(DropTrailingEmpty(ks), ',')
  {
    if |ks| > 0 {
      var init := ks[..|ks| - 1];
      var last := ks[|ks| - 1];
      var t := Terminated(init);
      assert Terminated(ks) == (t + last) + [','];
      TrimRightDropsCut(t + last, ',', Commas);
      if last == "" {
        assert t + last == t;
        PrefixKeeps(ks, |ks| - 1);
        TrimRightTerminated(init);
      } else {
        assert ',' !in last;
        TrimRightKeeps(t + last, Commas);
        if |init| > 0 {
          TerminatedJoin(init);
        }
      }
    }
  }

  lemma TrimRightDropsCut(u: string, c: char, cut: set<char>)
    requires c in cut
    ensures TrimRight(u + [c], cut) == TrimRight(u, cut)
  {
    assert (u + [c])[..|u|] == u;
  }

  lemma TrimRightKeeps(u: string, cut: set<char>)
    requires u != [] && u[|u| - 1] !in cut
    ensures TrimRight(u, cut) == u
  {
  }


  /** Trimming commas from the accumulated string yields the reference join. */
  lemma TrimTerminated(ks: seq<string>)
    requires CommaFree(ks)
    ensures Trim(Terminated(ks), Commas) == Join(DropTrailingEmpty(DropLeadingEmpty(ks)), ',')
  {
    var l := DropLeadingEmpty(ks);
    TrimLeftTerminated(ks);
    SuffixKeeps(ks, |ks| - |l|);
    TrimRightTerminated(l);
  }

  lemma {:induction false} JoinFirst(ks: seq<string>)
    requires |ks| >= 1 && ks[0] != ""
    ensures |Join(ks, ',')| > 0 && Join(ks, ',')[0] == ks[0][0]
  {
    if |ks| > 1 {
      JoinFirst(ks[..|ks| - 1]);
    }
  }

  /** An unset accelerator list stays unset. */
  lemma NormalizedAcceleratorsOfEmpty()
    ensures NormalizedAccelerators("") == ""
  {
    assert Split("", ',') == [""];
    assert Kept([""]) == [];
  }

  /** The normalised list never starts or ends with a comma. */
  lemma NormalizedAcceleratorsEdges(raw: string)
    ensures var r := NormalizedAccelerators(raw);
            r == "" || (r[0] != ',' && r[|r| - 1] != ',')
  {
    var es := AcceleratorEntries(raw);
    if es != [] {
      JoinFirst(es);
      JoinLast(es);
      assert ',' !in es[0] && ',' !in es[|es| - 1];
    }
  }

  lemma JoinLast(ks: seq<string>)
    requires |ks| >= 1 && ks[|ks| - 1] != ""
    ensures var j := Join(ks, ',');
            |j| > 0 && j[|j| - 1] == ks[|ks| - 1][|ks[|ks| - 1]| - 1]
  {
  }

  /**
   * Splitting the normalised list again gives back exactly its entries, so
   * the original order is kept and no entry carries surrounding blanks.
   */
  lemma NormalizedAcceleratorsSplit(raw: string)
    ensures AcceleratorEntries(raw) == [] <==> NormalizedAccelerators(raw) == ""
    ensures AcceleratorEntries(raw) != [] ==>
              Split(NormalizedAccelerators(raw), ',') == AcceleratorEntries(raw)
  {
    var es := AcceleratorEntries(raw);
    if es != [] {
      JoinFirst(es);
      SplitJoin(es, ',');
    }
  }

  /**
   * Only literally empty pieces are skipped: a piece made of blanks alone,
   * between two others, becomes an empty entry of the normalised list.
   */
  lemma NormalizedAcceleratorsBlankPiece(x: string, b: string, z: string)
    requires x != "" && z != "" && ',' !in x && ',' !in z
    requires NoEdgeBlanks(x) && NoEdgeBlanks(z)
    requires b != "" && forall i :: 0 <= i < |b| ==> b[i] in Blanks
    ensures NormalizedAccelerators(x + [','] + b + [','] + z) == x + [',', ','] + z
  {
    EntriesOfBlankPiece(x, b, z);
    JoinThree(x, "", z);
  }

  /** A trailing comma adds only an empty piece, which is skipped, so it changes nothing. */
  lemma NormalizedAcceleratorsTrailingComma(raw: string)
    ensures NormalizedAccelerators(raw + [',']) == NormalizedAccelerators(raw)
  {
    var pieces := Split(raw, ',');
    SplitAppend(raw, "", ',');
    assert raw + [','] + "" == raw + [','];
    KeptSnoc(pieces, "");
    assert Kept(pieces) + [] == Kept(pieces);
  }

  /**
   * An empty piece between two others is skipped, and each of the two is
   * trimmed of blanks: `x,,z` gives `Trim(x),Trim(z)`.
   */
  lemma NormalizedAcceleratorsEmptyPiece(x: string, z: string)
    requires ',' !in x && ',' !in z
    requires Trim(x, Blanks) != "" && Trim(z, Blanks) != ""
    ensures NormalizedAccelerators(x + [',', ','] + z) == Trim(x, Blanks) + [','] + Trim(z, Blanks)
  {
    EntriesOfEmptyPiece(x, z);
    var tx, tz := Trim(x, Blanks), Trim(z, Blanks);
    assert [tx, tz][..1] == [tx];
    assert Join([tx, tz], ',') == Join([tx], ',') + [','] + tz;
  }

  lemma EntriesOfEmptyPiece(x: string, z: string)
    requires ',' !in x && ',' !in z
    requires Trim(x, Blanks) != "" && Trim(z, Blanks) != ""
    ensures AcceleratorEntries(x + [',', ','] + z) == [Trim(x, Blanks), Trim(z, Blanks)]
  {
    SplitEmptyMiddle(x, z);
    KeptEmptyMiddle(x, z);
    EntriesOfSplit(x + [',', ','] + z, [x, "", z], [Trim(x, Blanks), Trim(z, Blanks)]);
  }

  lemma SplitEmptyMiddle(x: string, z: string)
    requires ',' !in x && ',' !in z
    ensures Split(x + [',', ','] + z, ',') == [x, "", z]
  {
    SplitWithoutSeparator(x, ',');
    SplitAppend(x, "", ',');
    DoubleComma(x, z);
    SplitAppend(x + [','], z, ',');
  }

  lemma DoubleComma(x: string, z: string)
    ensures x + [','] + "" == x + [',']
    ensures x + [','] + [','] + z == x + [',', ','] + z
  {
    assert x + [','] + [','] == x + [',', ','];
  }

  /** Entries from the pieces of a split, when no kept entry at either end is empty. */
  lemma EntriesOfSplit(raw: string, pieces: seq<string>, ks: seq<string>)
    requires Split(raw, ',') == pieces && Kept(pieces) == ks
    requires ks != [] && ks[0] != "" && ks[|ks| - 1] != ""
    ensures AcceleratorEntries(raw) == ks
  {
  }

  lemma KeptEmptyMiddle(a: string, c: string)
    requires a != "" && c != ""
    ensures Kept([a, "", c]) == [Trim(a, Blanks), Trim(c, Blanks)]
  {
    assert [a, "", c][..2] == [a, ""] && [a, ""][..1] == [a] && [a][..0] == [];
    assert Kept([a]) == [Trim(a, Blanks)];
    assert Kept([a, ""]) == [Trim(a, Blanks)];
  }

  /**
   * The shape of `"  kvm ,, tcg\t,"`: two words with blank padding, an empty
   * piece between them and a trailing comma normalise to the two bare words.
   */
  lemma NormalizedAcceleratorsPadded(pre1: string, w1: string, post1: string,
                                     pre2: string, w2: string, post2: string)
    requires Blanked(pre1) && Blanked(post1) && Blanked(pre2) && Blanked(post2)
    requires Word(w1) && Word(w2)
    ensures NormalizedAccelerators((pre1 + w1 + post1) + [',', ','] + (pre2 + w2 + post2) + [','])
         == w1 + [','] + w2
  {
    var x, z := pre1 + w1 + post1, pre2 + w2 + post2;
    TrimPadded(pre1, w1, post1, Blanks);
    TrimPadded(pre2, w2, post2, Blanks);
    BlankedPaddingHasNoComma(pre1, w1, post1);
    BlankedPaddingHasNoComma(pre2, w2, post2);
    NormalizedAcceleratorsEmptyPiece(x, z);
    NormalizedAcceleratorsTrailingComma(x + [',', ','] + z);
  }

  /** A worked example: `"  kvm ,, tcg\t,"` normalises to `"kvm,tcg"`. */
  lemma NormalizedAcceleratorsExample()
    ensures NormalizedAccelerators("  kvm ,, tcg\t,") == "kvm,tcg"
  {
    assert Blanked("  ") && Blanked(" ") && Blanked("\t");
    assert Word("kvm") && Word("tcg");
    NormalizedAcceleratorsPadded("  ", "kvm", " ", " ", "tcg", "\t");
    assert ("  " + "kvm" + " ") + [',', ','] + (" " + "tcg" + "\t") + [','] == "  kvm ,, tcg\t,";
    assert "kvm" + [','] + "tcg" == "kvm,tcg";
  }

  /** Only blanks. */
  predicate Blanked(s: string) {
    forall i :: 0 <= i < |s| ==> s[i] in Blanks
  }

  /** A non-empty accelerator name: no comma, and no blank at either end. */
  predicate Word(w: string) {
    w != [] && ',' !in w && w[0] !in Blanks && w[|w| - 1] !in Blanks
  }

  lemma BlankedPaddingHasNoComma(pre: string, w: string, post: string)
    requires Blanked(pre) && Blanked(post) && ',' !in w
    ensures ',' !in pre + w + post
  {
    forall i | 0 <= i < |pre + w + post| ensures (pre + w + post)[i] != ',' {
      if i < |pre| {
        assert (pre + w + post)[i] == pre[i];
      } else if i < |pre| + |w| {
        assert (pre + w + post)[i] == w[i - |pre|];
      } else {
        assert (pre + w + post)[i] == post[i - |pre| - |w|];
      }
    }
  }

  /**
   * Normalising twice can differ from normalising once: the empty entry a
   * blank-only middle piece leaves behind is skipped on the second pass.
   */
  lemma NormalizedAcceleratorsNotIdempotent(x: string, b: string, z: string)
    requires x != "" && z != "" && ',' !in x && ',' !in z
    requires NoEdgeBlanks(x) && NoEdgeBlanks(z)
    requires b != "" && forall i :: 0 <= i < |b| ==> b[i] in Blanks
    ensures var once := NormalizedAccelerators(x + [','] + b + [','] + z);
            NormalizedAccelerators(once) != once
  {
    NormalizedAcceleratorsBlankPiece(x, b, z);
    TrimWithoutEdgeBlanks(x);
    TrimWithoutEdgeBlanks(z);
    NormalizedAcceleratorsEmptyPiece(x, z);
    assert |x + [','] + z| < |x + [',', ','] + z|;
  }

  lemma EntriesOfBlankPiece(x: string, b: string, z: string)
    requires x != "" && z != "" && ',' !in x && ',' !in z
    requires NoEdgeBlanks(x) && NoEdgeBlanks(z)
    requires b != "" && forall i :: 0 <= i < |b| ==> b[i] in Blanks
    ensures AcceleratorEntries(x + [','] + b + [','] + z) == [x, "", z]
  {
    assert ',' !in b by {
      forall i | 0 <= i < |b| ensures b[i] != ',' {
        assert b[i] in Blanks;
      }
    }
    SplitThree(x, b, z);
    KeptOfThree(x, b, z);
    TrimWithoutEdgeBlanks(x);
    TrimWithoutEdgeBlanks(z);
    TrimEmpty(b, Blanks);
    var es := [x, "", z];
    assert Kept([x, b, z]) == es;
    assert DropLeadingEmpty(es) == es;
    assert DropTrailingEmpty(es) == es;
  }

  lemma JoinThree(x: string, y: string, z: string)
    ensures Join([x, y, z], ',') == x + [','] + y + [','] + z
  {
    assert [x, y, z][..2] == [x, y] && [x, y][..1] == [x];
    assert Join([x, y], ',') == x + [','] + y;
    assert Join([x, y, z], ',') == Join([x, y], ',') + [','] + z;
  }

  lemma SplitThree(x: string, y: string, z: string)
    requires ',' !in x && ',' !in y && ',' !in z
    ensures Split(x + [','] + y + [','] + z, ',') == [x, y, z]
  {
    SplitWithoutSeparator(x, ',');
    SplitAppend(x, y, ',');
    SplitAppend(x + [','] + y, z, ',');
  }

  lemma TrimWithoutEdgeBlanks(x: string)
    requires NoEdgeBlanks(x)
    ensures Trim(x, Blanks) == x
  {
    assert TrimLeft(x, Blanks) == x;
  }

  lemma KeptOfThree(a: string, b: string, c: string)
    requires a != "" && b != "" && c != ""
    ensures Kept([a, b, c]) == [Trim(a, Blanks), Trim(b, Blanks), Trim(c, Blanks)]
  {
    assert [a, b, c][..2] == [a, b] && [a, b][..1] == [a] && [a][..0] == [];
    assert Kept([a]) == [Trim(a, Blanks)];
    assert Kept([a, b]) == [Trim(a, Blanks), Trim(b, Blanks)];
  }

}
