/**
  The payment intent text and the identifier built from its digest
  (src/actions/payment-prep-action.ts:202-235), and the asset identity of the payment policy.
*/
module PaymentIntent {
  import opened Common
  import opened Texts
  import opened Json
  import opened Digests
  import opened StellarAmount

  datatype Intent = Intent(taskId: Text, walletId: Text, recipientId: Option<Text>, assetCode: Text,
                           assetIssuer: Option<Text>, stroops: nat, memo: Option<Text>)

  function OrNull(t: Option<Text>): Json {
    if t.Some? then Str(t.value) else Null
  }

  /** The array that is written: six elements for native XLM, the issuer as a seventh otherwise. */
  function IntentItems(i: Intent): seq<Json> {
    [Str(i.taskId), Str(i.walletId), OrNull(i.recipientId), Str(i.assetCode), Str(Numeral(i.stroops)), OrNull(i.memo)]
    + if i.assetIssuer.Some? then [Str(i.assetIssuer.value)] else []
  }

  function IntentText(i: Intent): Text {
    Render(Arr(IntentItems(i)))
  }

  predicate PlainItem(v: Json) {
    v.Str? || v.Null?
  }

  lemma {:induction false} PlainItemsAreKept(items: seq<Json>)
    requires forall k :: 0 <= k < |items| ==> PlainItem(items[k])
    ensures ProperItems(items) && WrittenItems(items) == items
  {
    if items != [] {
      PlainItemsAreKept(items[1..]);
    }
  }

  lemma NumeralsDiffer(m: nat, n: nat)
    requires Numeral(m) == Numeral(n)
    ensures m == n
  {
    NumeralRoundTrip(m);
    NumeralRoundTrip(n);
  }

  lemma SameItemsSameIntent(a: Intent, b: Intent)
    requires IntentItems(a) == IntentItems(b)
    ensures a == b
  {
    var x, y := IntentItems(a), IntentItems(b);
    assert x[0] == y[0] && x[1] == y[1] && x[2] == y[2] && x[3] == y[3] && x[4] == y[4] && x[5] == y[5];
    NumeralsDiffer(a.stroops, b.stroops);
    assert |x| == 7 ==> x[6] == y[6];
  }

  /** The intent text is ambiguous in nothing: equal texts are equal intents, field by field. */
  lemma IntentTextIsInjective(a: Intent, b: Intent)
    requires IntentText(a) == IntentText(b)
    ensures a == b
  {
    PlainItemsAreKept(IntentItems(a));
    PlainItemsAreKept(IntentItems(b));
    ParseUndoesRender(Arr(IntentItems(a)));
    ParseUndoesRender(Arr(IntentItems(b)));
    SameItemsSameIntent(a, b);
  }

  /** Reading the text gives an array with every field in its place. */
  lemma IntentTextIsRead(i: Intent)
    ensures Parse(IntentText(i)).Some? && Parse(IntentText(i)).value.Arr?
    ensures var items := Parse(IntentText(i)).value.items;
            && |items| == (if i.assetIssuer.Some? then 7 else 6)
            && items[0] == Str(i.taskId) && items[1] == Str(i.walletId)
            && items[2] == (if i.recipientId.Some? then Str(i.recipientId.value) else Null)
            && items[3] == Str(i.assetCode)
            && items[4].Str? && AllDigits(items[4].s) && NumeralValue(items[4].s) == i.stroops
            && items[5] == (if i.memo.Some? then Str(i.memo.value) else Null)
            && (i.assetIssuer.Some? ==> items[6] == Str(i.assetIssuer.value))
  {
    PlainItemsAreKept(IntentItems(i));
    ParseUndoesRender(Arr(IntentItems(i)));
    NumeralRoundTrip(i.stroops);
  }

  const DASH: Unit := 45

  function TransactionStubId(sha: Hash, i: Intent): Text {
    Units("stellar-stub-") + i.taskId + [DASH] + i.walletId + [DASH] + sha(IntentText(i))
  }

  lemma SameTail(a: Text, b: Text, x: Digest, y: Digest)
    requires a + x == b + y
    ensures x == y
  {
    assert (a + x)[|a + x| - 64..] == x && (b + y)[|b + y| - 64..] == y;
  }

  /** Task and wallet ids may hold dashes, yet one stub id serves two intents only if their texts collide. */
  lemma StubIdIdentifiesIntent(sha: Hash, a: Intent, b: Intent)
    requires TransactionStubId(sha, a) == TransactionStubId(sha, b)
    ensures a == b || Collide(sha, IntentText(a), IntentText(b))
  {
    var x := Units("stellar-stub-") + a.taskId + [DASH] + a.walletId + [DASH];
    var y := Units("stellar-stub-") + b.taskId + [DASH] + b.walletId + [DASH];
    SameTail(x, y, sha(IntentText(a)), sha(IntentText(b)));
    if IntentText(a) == IntentText(b) {
      IntentTextIsInjective(a, b);
    }
  }

  /** The intent for an amount as written. */
  function Prepared(i: Intent, amount: Text): Intent
    requires NormalizeStellarAmount(amount).Some?
  {
    i.(stroops := NormalizeStellarAmount(amount).value.1)
  }

  /** Two spellings of one amount make one intent text, and two amounts never do. */
  lemma AmountIdentity(i: Intent, a: Text, b: Text)
    requires NormalizeStellarAmount(a).Some? && NormalizeStellarAmount(b).Some?
    ensures IntentText(Prepared(i, a)) == IntentText(Prepared(i, b)) <==> Denotes(a) == Denotes(b)
  {
    StroopsCompareAsNumbers(a, b);
    var x, y := Prepared(i, a), Prepared(i, b);
    if IntentText(x) == IntentText(y) {
      IntentTextIsInjective(x, y);
      assert x.stroops == y.stroops;
    }
  }

  // ---------------------------------------------------------------------------------------
  // The payment policy's asset key

  /** STELLAR_ASSET_CODE_RE */
  predicate IsAssetCode(t: Text) {
    1 <= |t| <= 12 && forall i :: 0 <= i < |t| ==> IsDigit(t[i]) || 65 <= t[i] <= 90 || 97 <= t[i] <= 122
  }

  function AssetIdentity(code: Text, issuer: Option<Text>): Text {
    code + [0] + if issuer.Some? then issuer.value else []
  }

  lemma FirstNul(code: Text, issuer: Text)
    requires IsAssetCode(code)
    ensures (code + [0] + issuer)[|code|] == 0
    ensures forall k :: 0 <= k < |code| ==> (code + [0] + issuer)[k] != 0
  {
  }

  /** The key separates assets, because a code holds no NUL and an issuer is never empty. */
  lemma AssetIdentityIsInjective(c: Text, i: Option<Text>, d: Text, j: Option<Text>)
    requires IsAssetCode(c) && IsAssetCode(d)
    requires (i.Some? ==> i.value != []) && (j.Some? ==> j.value != [])
    requires AssetIdentity(c, i) == AssetIdentity(d, j)
    ensures c == d && i == j
  {
    var x, y := AssetIdentity(c, i), AssetIdentity(d, j);
    FirstNul(c, if i.Some? then i.value else []);
    FirstNul(d, if j.Some? then j.value else []);
    assert |c| == |d|;
    assert c == x[..|c|] && d == y[..|d|];
    assert x[|c| + 1..] == (if i.Some? then i.value else []) && y[|d| + 1..] == (if j.Some? then j.value else []);
  }
}
