/** The optional allow-list of member IDs (bot.py `TARGET_MEMBER_IDS`): the
    configured text is split at commas, each piece stripped of surrounding
    whitespace, and every piece that is a non-empty run of digits read as an
    integer. */
module AllowList {
  import opened Text

  /** The ID a single comma-free token contributes, if any. */
  predicate IsIdToken(token: string)
  {
    IsDigits(Strip(token))
  }

  function TokenId(token: string): nat
    requires IsIdToken(token)
  {
    DigitsValue(Strip(token))
  }

  /** The IDs contributed by a list of tokens, each at most one. */
  function TokenIds(tokens: seq<string>): set<nat>
  {
    if tokens == [] then {}
    else (if IsIdToken(tokens[0]) then {TokenId(tokens[0])} else {}) + TokenIds(tokens[1..])
  }

  /** An ID is collected exactly when some token strips to its digits. */
  lemma {:induction false} TokenIdsMembership(tokens: seq<string>, id: nat)
    ensures id in TokenIds(tokens) <==>
      exists k :: 0 <= k < |tokens| && IsIdToken(tokens[k]) && TokenId(tokens[k]) == id
  {
    if tokens != [] {
      TokenIdsMembership(tokens[1..], id);
      assert forall k :: 0 < k < |tokens| ==> tokens[k] == tokens[1..][k - 1];
      if exists k :: 0 < k < |tokens| && IsIdToken(tokens[k]) && TokenId(tokens[k]) == id {
        var k :| 0 < k < |tokens| && IsIdToken(tokens[k]) && TokenId(tokens[k]) == id;
        assert tokens[1..][k - 1] == tokens[k];
      }
    }
  }

  lemma {:induction false} TokenIdsAppend(a: seq<string>, b: seq<string>)
    ensures TokenIds(a + b) == TokenIds(a) + TokenIds(b)
  {
    if a != [] {
      assert (a + b)[1..] == a[1..] + b;
      TokenIdsAppend(a[1..], b);
    } else {
      assert a + b == b;
    }
  }

  /** The allow-list read from its configured text: the set of integers of
      the comma-separated pieces that strip to a run of digits. */
  function ParseAllowList(raw: string): (ids: set<nat>)
  {
    TokenIds(Split(raw, ','))
  }

  /** An ID is configured exactly when some comma-separated piece of the
      setting strips to a run of digits with that value. */
  lemma ParseAllowListMembership(raw: string, pieces: seq<string>, id: nat)
    requires pieces == Split(raw, ',')
    ensures id in ParseAllowList(raw) <==>
      exists k :: 0 <= k < |pieces| && IsIdToken(pieces[k]) && TokenId(pieces[k]) == id
  {
    TokenIdsMembership(pieces, id);
  }

  /** A comma-free token yields its integer if it strips to digits, and
      nothing otherwise (empty, blank or non-numeric pieces are dropped). */
  lemma ParseToken(token: string)
    requires ',' !in token
    ensures ParseAllowList(token) == if IsIdToken(token) then {TokenId(token)} else {}
  {
    SplitNoSeparator(token, ',');
    assert [token][1..] == [];
    assert TokenIds([]) == {};
  }

  /** An unset or empty setting yields the empty allow-list. */
  lemma ParseEmpty()
    ensures ParseAllowList("") == {}
  {
    assert Split("", ',') == [""];
    assert !IsIdToken("");
  }

  /** The IDs of `a,b` are the IDs of `a` together with those of `b`. */
  lemma ParseConcat(a: string, b: string)
    ensures ParseAllowList(a + [','] + b) == ParseAllowList(a) + ParseAllowList(b)
  {
    SplitConcat(a, b, ',');
    TokenIdsAppend(Split(a, ','), Split(b, ','));
  }

  /** A decimal ID after whitespace holds no comma and strips to the ID. */
  lemma PaddedIdToken(n: nat, pad: string)
    requires AllWhitespace(pad)
    ensures ',' !in pad + Decimal(n)
    ensures Strip(pad + Decimal(n)) == Decimal(n)
  {
    var token := pad + Decimal(n);
    assert ',' !in token by {
      assert forall k :: 0 <= k < |token| ==> IsWhitespace(token[k]) || IsDigit(token[k]);
    }
    assert Strip(token) == Decimal(n) by {
      StripPadded(pad, Decimal(n), []);
      assert pad + Decimal(n) + [] == token;
    }
  }

  /** One padded decimal ID parses to exactly that ID. */
  lemma ParsePaddedId(n: nat, pad: string)
    requires AllWhitespace(pad)
    ensures ParseAllowList(pad + Decimal(n)) == {n}
  {
    var token := pad + Decimal(n);
    PaddedIdToken(n, pad);
    assert IsIdToken(token);
    DecimalValue(n);
    assert TokenId(token) == n;
    ParseToken(token);
  }

  /** The setting written the usual way — decimal IDs separated by a comma,
      each preceded by the same run of whitespace (`"1, 2, 3"`) — parses to
      exactly the set of those IDs. */
  lemma ParseListed(ids: seq<nat>, pad: string)
    requires AllWhitespace(pad)
    ensures ParseAllowList(Listed(ids, pad)) == set id | id in ids
  {
    if ids == [] {
      ParseEmpty();
    } else {
      ParseListedNonEmpty(ids, pad);
    }
  }

  lemma {:induction false} ParseListedNonEmpty(ids: seq<nat>, pad: string)
    requires AllWhitespace(pad) && ids != []
    ensures ParseAllowList(Listed(ids, pad)) == set id | id in ids
  {
    ParsePaddedId(ids[0], pad);
    if |ids| == 1 {
      assert Listed(ids, pad) == pad + Decimal(ids[0]);
      assert (set id | id in ids) == {ids[0]};
    } else {
      ParseListedNonEmpty(ids[1..], pad);
      ParseListedCons(ids, pad);
      ElementsCons(ids);
    }
  }

  /** The first listed ID and the rest parse independently. */
  lemma ParseListedCons(ids: seq<nat>, pad: string)
    requires |ids| > 1
    ensures ParseAllowList(Listed(ids, pad)) ==
      ParseAllowList(pad + Decimal(ids[0])) + ParseAllowList(Listed(ids[1..], pad))
  {
    ListedCons(ids, pad);
    ParseConcat(pad + Decimal(ids[0]), Listed(ids[1..], pad));
  }

  lemma ListedCons(ids: seq<nat>, pad: string)
    requires |ids| > 1
    ensures Listed(ids, pad) == pad + Decimal(ids[0]) + [','] + Listed(ids[1..], pad)
  {
  }

  lemma ElementsCons(ids: seq<nat>)
    requires ids != []
    ensures (set id | id in ids) == {ids[0]} + (set id | id in ids[1..])
  {
    assert ids == [ids[0]] + ids[1..];
  }

  /** The comma-separated, padded listing of `ids`. */
  function Listed(ids: seq<nat>, pad: string): string
  {
    if ids == [] then []
    else if |ids| == 1 then pad + Decimal(ids[0])
    else pad + Decimal(ids[0]) + [','] + Listed(ids[1..], pad)
  }
}
