/**
 * The persisted entities and the persistence layer. A shipment is keyed by its
 * tracking number; an article by its shipment's tracking number and its SKU.
 * The ORM's `get_or_create` becomes `GetOrCreate` on a map.
 */
module Models {

  datatype ShipmentFields = ShipmentFields(
    carrier: string,
    senderAddress: string,
    receiverAddress: string,
    status: string)

  datatype ArticleKey = ArticleKey(trackingNumber: string, sku: string)

  datatype ArticleFields = ArticleFields(name: string, quantity: int, price: real)

  /** The contents of the two tables. */
  datatype StoreState = StoreState(
    shipments: map<string, ShipmentFields>,
    articles: map<ArticleKey, ArticleFields>)

  /** Every article belongs to a stored shipment (the foreign key). */
  ghost predicate Valid(st: StoreState) {
    forall k :: k in st.articles ==> k.trackingNumber in st.shipments
  }

  /** `st2` holds every record of `st` with the same fields: records are never changed or removed. */
  ghost predicate Extends(st: StoreState, st2: StoreState) {
    && (forall t :: t in st.shipments ==> t in st2.shipments && st2.shipments[t] == st.shipments[t])
    && (forall k :: k in st.articles ==> k in st2.articles && st2.articles[k] == st.articles[k])
  }

  /**
   * `get_or_create`: the stored record under `key` is kept if there is one
   * (first write wins), otherwise `defaults` is stored; the flag says whether
   * a record was created.
   */
  function GetOrCreate<K, V>(m: map<K, V>, key: K, defaults: V): (r: (map<K, V>, bool))
    ensures r.1 <==> key !in m
    ensures r.0.Keys == m.Keys + {key}
    ensures |r.0| == if r.1 then |m| + 1 else |m|
    ensures forall k :: k in m ==> r.0[k] == m[k]
    ensures r.1 ==> r.0[key] == defaults
  {
    if key in m then (m, false) else (m[key := defaults], true)
  }

  /** The database the ORM writes to. */
  class Database {
    var shipments: map<string, ShipmentFields>
    var articles: map<ArticleKey, ArticleFields>

    function State(): StoreState
      reads this
    {
      StoreState(shipments, articles)
    }

    /** `Shipment.objects.get_or_create(tracking_number=..., defaults=...)`. */
    method GetOrCreateShipment(trackingNumber: string, defaults: ShipmentFields) returns (created: bool)
      modifies this
      ensures (shipments, created) == GetOrCreate(old(shipments), trackingNumber, defaults)
      ensures articles == old(articles)
    {
      created := trackingNumber !in shipments;
      if created {
        shipments := shipments[trackingNumber := defaults];
      }
    }

    /** `Article.objects.get_or_create(shipment=..., sku=..., defaults=...)`. */
    method GetOrCreateArticle(key: ArticleKey, defaults: ArticleFields) returns (created: bool)
      modifies this
      ensures (articles, created) == GetOrCreate(old(articles), key, defaults)
      ensures shipments == old(shipments)
    {
      created := key !in articles;
      if created {
        articles := articles[key := defaults];
      }
    }

    /** Rolling a transaction back restores the contents saved when it began. */
    method Rollback(savepoint: StoreState)
      modifies this
      ensures State() == savepoint
    {
      shipments := savepoint.shipments;
      articles := savepoint.articles;
    }
  }
}
