/** Queries worked through the parser. */
module Examples {
  import opened Wrappers
  import opened Text
  import opened Query

  /** A word in which no token can start: no `n`, and a `t` only too close
      to the end for `type:.` or `taille` to fit. */
  lemma NoTokenIn(kw: string)
    requires forall i :: 0 <= i < |kw| ==> kw[i] != 'n' && (kw[i] == 't' ==> i + 6 >= |kw|)
    ensures forall t: Token, j: nat :: !MatchesAt(t, kw, j)
  {
    forall t: Token, j: nat ensures !MatchesAt(t, kw, j) {
      LiteralAtImplies(kw, j, Lead(t), 0);
    }
  }

  /** The example query, assembled from the pieces the general lemma takes. */
  lemma SpellExample()
    ensures "." + "txt" == ".txt"
    ensures "nom:" + "rapport" + " " + ("type:." + "txt" + " " + ("taille" + (['>'] + "1000") + " " + "facture"))
         == "nom:rapport type:.txt taille>1000 facture"
  {
  }

  /** The example query of the search field: name, extension, a minimum
      size and the keyword. */
  lemma ExampleQuery()
    ensures ParseSmartSearch("nom:rapport type:.txt taille>1000 facture")
         == Filters(Some("rapport"), Some(".txt"), Some("1000"), None, "facture")
  {
    var q := "nom:" + "rapport" + " " + ("type:." + "txt" + " " + ("taille" + (['>'] + "1000") + " " + "facture"));
    assert ParseSmartSearch(q) == Filters(Some("rapport"), Some("." + "txt"), Some("1000"), None, "facture") by {
      NoTokenIn("facture");
      assert IsNumeral("1000");
      ParseCanonicalQuery("rapport", "txt", '>', "1000", "facture");
    }
    SpellExample();
  }

  /** `taille=500 budget`, assembled from its pieces. */
  lemma SpellEqualsQuery()
    ensures "taille" + (['='] + "500") + " " + "budget" == "taille=500 budget"
  {
  }

  /** `taille=500 budget`: the `=` token is removed and sets no bound. */
  lemma EqualsSetsNoBound()
    ensures ParseSmartSearch("taille=500 budget") == Filters(None, None, None, None, "budget")
  {
    var q := "taille" + (['='] + "500") + " " + "budget";
    assert ParseSmartSearch(q) == Filters(None, None, None, None, "budget") by {
      NoTokenIn("budget");
      assert IsNumeral("500");
      NoTokenAfterSize('=', "500", "budget");
      ExtractSizeToken('=', "500", "budget");
      ParseChain(q, None, q, None, q, Some(['='] + "500"), "budget");
    }
    SpellEqualsQuery();
  }

  /** The only `nom:` match in `nom` + `nom:<w>` + `:<y>` is the one at 3. */
  lemma DeletionNameMatches(w: string, y: string)
    requires |w| > 0 && forall j :: 0 <= j < |w| ==> IsWordChar(w[j])
    requires forall j :: 0 <= j < |y| ==> IsWordChar(y[j])
    ensures var q := "nom" + ("nom:" + w) + (":" + y);
            && MatchesAt(NameToken, q, 3)
            && (forall j :: 0 <= j < 3 ==> !MatchesAt(NameToken, q, j))
            && (forall j :: 7 + |w| <= j < |q| ==> !MatchesAt(NameToken, q, j))
  {
    var q := "nom" + ("nom:" + w) + (":" + y);
    var e := 7 + |w|;
    assert q[..7] == "nomnom:";
    assert q[e] == ':';
    forall j | 0 <= j < 3 ensures !MatchesAt(NameToken, q, j) {
      LiteralAtImplies(q, j, Lead(NameToken), 3);
    }
    LiteralAtFromChars(q, 3, Lead(NameToken));
    assert q[7] == w[0];
    forall i | 0 <= i < |y| ensures y[i] != ':' && q[e + 1 + i] == y[i] {
      WordCharIsNotColon(y[i]);
    }
    forall j | e <= j < |q| ensures !MatchesAt(NameToken, q, j) {
      LiteralAtImplies(q, j, Lead(NameToken), if j == e then 0 else 3);
    }
  }

  /** The `nom:` step on `nom` + `nom:<w>` + `:<y>`: the match is the one
      after the first `nom`, and what is left joins into `nom:<y>`. */
  lemma DeletionNameStep(w: string, y: string)
    requires |w| > 0 && forall j :: 0 <= j < |w| ==> IsWordChar(w[j])
    requires |y| > 0 && forall j :: 0 <= j < |y| ==> IsWordChar(y[j])
    ensures Extract(NameToken, "nom" + ("nom:" + w) + (":" + y)) == Extraction(Some(w), "nom:" + y)
  {
    var q := "nom" + ("nom:" + w) + (":" + y);
    var e := 7 + |w|;
    DeletionNameMatches(w, y);
    forall j | 7 <= j < e ensures InRun(NameToken, q[j]) {
      assert q[j] == w[j - 7];
    }
    assert q[e] == ':';
    assert q[7..e] == w;
    assert q[..3] + q[e..] == "nom:" + y;
    WordCharIsNotSpace(y[|y| - 1]);
    ExtractOnce(NameToken, q, 3, e, w, "nom:" + y);
  }

  /** Neither `type:.` nor `taille<op>` occurs in `nom:<y>`. */
  lemma NoTypeOrSizeAfterName(y: string)
    requires forall j :: 0 <= j < |y| ==> IsWordChar(y[j])
    ensures forall j: nat :: !MatchesAt(TypeToken, "nom:" + y, j)
    ensures forall j: nat :: !MatchesAt(SizeToken, "nom:" + y, j)
  {
    var k := "nom:" + y;
    forall i | 0 <= i < |y| ensures y[i] != '.' && k[4 + i] == y[i] {
      WordCharIsNotColon(y[i]);
    }
    forall j: nat ensures !MatchesAt(TypeToken, k, j) {
      LiteralAtImplies(k, j, Lead(TypeToken), 5);
    }
  }

  /** Deleting a `nom:` match can join the text around it into a new
      `nom:` token, which stays in the keyword: in `nom` + `nom:<w>` +
      `:<y>` the name is `w` and the keyword is `nom:<y>`. */
  lemma DeletionFormsToken(w: string, y: string)
    requires |w| > 0 && forall j :: 0 <= j < |w| ==> IsWordChar(w[j])
    requires |y| > 0 && forall j :: 0 <= j < |y| ==> IsWordChar(y[j])
    ensures ParseSmartSearch("nom" + ("nom:" + w) + (":" + y)) == Filters(Some(w), None, None, None, "nom:" + y)
  {
    var k := "nom:" + y;
    DeletionNameStep(w, y);
    NoTypeOrSizeAfterName(y);
    ParseChain("nom" + ("nom:" + w) + (":" + y), Some(w), k, None, k, None, k);
  }

  /** Word characters are neither `:` nor `.`. */
  lemma WordCharIsNotColon(c: char)
    requires IsWordChar(c)
    ensures c != ':' && c != '.'
  {
  }

  /** `nomnom:x:y` and `nom:y`, assembled from their pieces. */
  lemma SpellDeletion()
    ensures "nom" + ("nom:" + "x") + (":" + "y") == "nomnom:x:y"
    ensures "nom:" + "y" == "nom:y"
  {
  }

  /** `nomnom:x:y` gives the name `x` and the keyword `nom:y`. */
  lemma DeletionExample()
    ensures ParseSmartSearch("nomnom:x:y") == Filters(Some("x"), None, None, None, "nom:y")
  {
    assert ParseSmartSearch("nom" + ("nom:" + "x") + (":" + "y")) == Filters(Some("x"), None, None, None, "nom:" + "y") by {
      DeletionFormsToken("x", "y");
    }
    SpellDeletion();
  }
}
