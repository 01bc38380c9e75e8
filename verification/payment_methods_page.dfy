/** The payment-methods page: creating a custom method and toggling one on or off. */
module PaymentMethodsPage {
  import opened Results
  import opened Entities
  import opened OfflineStore
  import PageWrites
  import MasterDataCache

  datatype MethodForm = MethodForm(name: string, enabled: bool)

  /** A method created on this page is always of the custom kind, named after itself. */
  function NewMethod(form: MethodForm, now: int): (m: PaymentMethod)
    ensures m.methodType == Custom(m.name)
    ensures m.id == now && m.name == form.name && m.enabled == form.enabled
  {
    PaymentMethod(now, form.name, Custom(form.name), form.enabled)
  }

  /** `handleSubmit`: the new method is appended, saved and queued as 'create'. */
  function CreateMethod(methods: seq<PaymentMethod>, form: MethodForm, now: int): (plan: PageWrites.Plan)
    ensures plan.completes && |plan.writes| == 2
    ensures plan.writes[0].Save? && plan.writes[0].key == "paymentMethods" && plan.writes[0].blob.PaymentMethods?
    ensures var saved := plan.writes[0].blob.methods;
      && |saved| == |methods| + 1 && saved[..|methods|] == methods
      && saved[|methods|] == NewMethod(form, now)
      && plan.writes[1] == Enqueue("paymentMethod", "create", PaymentMethodData(saved[|methods|]))
  {
    var m := NewMethod(form, now);
    PageWrites.SaveAndQueue("paymentMethods", PaymentMethods(methods + [m]), "paymentMethod", "create", PaymentMethodData(m))
  }

  /** Submitting on the store the page read from: if the save rejects nothing
      changes; otherwise the methods read back as the old list plus the new
      method; if the enqueue rejects nothing is queued; on success the new
      method is queued at the next key. */
  lemma CreateMethodInStore(s: Store, form: MethodForm, now: int, failAt: Option<nat>)
    requires Valid(s)
    ensures var m := NewMethod(form, now);
      var e := PageWrites.RunPlan(s, CreateMethod(MasterDataCache.ListPaymentMethods(s), form, now), now, failAt);
      && (failAt == Some(0) ==> e.store == s && e.result.Err?)
      && (failAt != Some(0) ==> MasterDataCache.ListPaymentMethods(e.store) == MasterDataCache.ListPaymentMethods(s) + [m])
      && (failAt == Some(1) ==> e.store.syncQueue == s.syncQueue && e.result.Err?)
      && (e.result.Ok? ==>
            && s.nextSyncId in e.store.syncQueue
            && e.store.syncQueue[s.nextSyncId] == SyncItem("paymentMethod", "create", PaymentMethodData(m), Pending, 0, now))
  {
    var m := NewMethod(form, now);
    var blob := PaymentMethods(MasterDataCache.ListPaymentMethods(s) + [m]);
    PageWrites.SaveAndQueueEffect(s, "paymentMethods", blob, "paymentMethod", "create", PaymentMethodData(m), now, failAt);
    var e := PageWrites.RunPlan(s, CreateMethod(MasterDataCache.ListPaymentMethods(s), form, now), now, failAt);
    if failAt != Some(0) {
      MasterDataCache.ReadAfterSave(s, MasterDataCache.PaymentMethodsKey, blob);
      assert MasterDataCache.UseMasterData(e.store, MasterDataCache.PaymentMethodsKey) == blob;
    }
  }

  /** The method with `enabled` negated. */
  function Flip(m: PaymentMethod): (r: PaymentMethod)
    ensures r.enabled == !m.enabled
    ensures r.id == m.id && r.name == m.name && r.methodType == m.methodType
  {
    m.(enabled := !m.enabled)
  }

  /** The list rewrite of `toggleEnabled`: only methods with the given id flip. */
  function ToggleList(methods: seq<PaymentMethod>, id: int): (r: seq<PaymentMethod>)
    ensures |r| == |methods|
    ensures forall i | 0 <= i < |r| :: r[i].id == methods[i].id && r[i].name == methods[i].name && r[i].methodType == methods[i].methodType
    ensures forall i | 0 <= i < |r| :: r[i].enabled == (if methods[i].id == id then !methods[i].enabled else methods[i].enabled)
  {
    seq(|methods|, i requires 0 <= i < |methods| => if methods[i].id == id then Flip(methods[i]) else methods[i])
  }

  /** Toggling the same method twice restores the list. */
  lemma ToggleTwiceIdentity(methods: seq<PaymentMethod>, id: int)
    ensures ToggleList(ToggleList(methods, id), id) == methods
  {
    var r := ToggleList(ToggleList(methods, id), id);
    forall i | 0 <= i < |r| ensures r[i] == methods[i] {
      assert r[i].enabled == methods[i].enabled;
    }
  }

  /** `toggleEnabled`: the rewritten list is saved, and the clicked method
      with `enabled` negated is queued as 'update'; when the clicked method is
      in the list, the queued value is exactly its saved replacement. */
  function ToggleEnabled(methods: seq<PaymentMethod>, clicked: PaymentMethod): (plan: PageWrites.Plan)
    ensures plan.completes && |plan.writes| == 2
    ensures plan.writes[0] == Save("paymentMethods", PaymentMethods(ToggleList(methods, clicked.id)))
    ensures plan.writes[1].Enqueue? && plan.writes[1].entityType == "paymentMethod" && plan.writes[1].operation == "update"
    ensures plan.writes[1].data.PaymentMethodData?
    ensures plan.writes[1].data.paymentMethod.enabled == !clicked.enabled
    ensures forall i | 0 <= i < |methods| && methods[i] == clicked ::
      ToggleList(methods, clicked.id)[i] == plan.writes[1].data.paymentMethod
  {
    PageWrites.SaveAndQueue("paymentMethods", PaymentMethods(ToggleList(methods, clicked.id)),
      "paymentMethod", "update", PaymentMethodData(Flip(clicked)))
  }
}
