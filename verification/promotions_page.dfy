/** The promotions page: creating a promotion from the dialog. */
module PromotionsPage {
  import opened Results
  import opened Entities
  import opened OfflineStore
  import PageWrites
  import MasterDataCache

  /** The two choices of the type selector. */
  datatype Kind = Percentage | Fixed

  function KindName(k: Kind): (r: string)
    ensures r == "percentage" || r == "fixed"
  {
    match k
    case Percentage => "percentage"
    case Fixed => "fixed"
  }

  datatype PromotionForm = PromotionForm(name: string, kind: Kind, value: string, couponCode: string, active: bool)

  /** The promotion the dialog builds: the value converted to a number, an
      empty coupon code stored as absent, no purchase minimum or validity window. */
  function NewPromotion(form: PromotionForm, number: string -> int, now: int): (p: Promotion)
    ensures form.kind == Percentage ==> p.promoType == "percentage"
    ensures form.kind == Fixed ==> p.promoType == "fixed"
    ensures p.name == form.name && p.active == form.active
    ensures p.couponCode.None? <==> form.couponCode == ""
    ensures p.couponCode.Some? ==> p.couponCode.value == form.couponCode
    ensures p.value == number(form.value)
    ensures p.id == now && p.createdAt == now
    ensures p.minPurchaseAmount.None? && p.validFrom.None? && p.validTo.None?
  {
    Promotion(now, form.name, KindName(form.kind), number(form.value),
      if form.couponCode != "" then Some(form.couponCode) else None,
      form.active, now, None, None, None)
  }

  /** `handleSubmit`: the promotion is appended and saved, and the same
      object is queued as 'promotion'/'create'. */
  function CreatePromotion(promotions: seq<Promotion>, form: PromotionForm, number: string -> int, now: int): (plan: PageWrites.Plan)
    ensures plan.completes && |plan.writes| == 2
    ensures plan.writes[0].Save? && plan.writes[0].key == "promotions" && plan.writes[0].blob.Promotions?
    ensures var saved := plan.writes[0].blob.promotions;
      && |saved| == |promotions| + 1 && saved[..|promotions|] == promotions
      && plan.writes[1] == Enqueue("promotion", "create", PromotionData(saved[|promotions|]))
      && saved[|promotions|] == NewPromotion(form, number, now)
  {
    var p := NewPromotion(form, number, now);
    PageWrites.SaveAndQueue("promotions", Promotions(promotions + [p]), "promotion", "create", PromotionData(p))
  }

  /** Submitting on the store the page read from: if the save rejects nothing
      changes; otherwise the promotions read back as the old list plus the new
      promotion; if the enqueue rejects nothing is queued; on success the new
      promotion is queued at the next key. */
  lemma CreatePromotionInStore(s: Store, form: PromotionForm, number: string -> int, now: int, failAt: Option<nat>)
    requires Valid(s)
    ensures var p := NewPromotion(form, number, now);
      var e := PageWrites.RunPlan(s, CreatePromotion(MasterDataCache.ListPromotions(s), form, number, now), now, failAt);
      && (failAt == Some(0) ==> e.store == s && e.result.Err?)
      && (failAt != Some(0) ==> MasterDataCache.ListPromotions(e.store) == MasterDataCache.ListPromotions(s) + [p])
      && (failAt == Some(1) ==> e.store.syncQueue == s.syncQueue && e.result.Err?)
      && (e.result.Ok? ==>
            && s.nextSyncId in e.store.syncQueue
            && e.store.syncQueue[s.nextSyncId] == SyncItem("promotion", "create", PromotionData(p), Pending, 0, now))
  {
    var p := NewPromotion(form, number, now);
    var blob := Promotions(MasterDataCache.ListPromotions(s) + [p]);
    PageWrites.SaveAndQueueEffect(s, "promotions", blob, "promotion", "create", PromotionData(p), now, failAt);
    var e := PageWrites.RunPlan(s, CreatePromotion(MasterDataCache.ListPromotions(s), form, number, now), now, failAt);
    if failAt != Some(0) {
      MasterDataCache.ReadAfterSave(s, MasterDataCache.PromotionsKey, blob);
      assert MasterDataCache.UseMasterData(e.store, MasterDataCache.PromotionsKey) == blob;
    }
  }
}
