/**
  The service list of the Services section: a fixed table of seven services
  (id, Turkish title, English title, icon path) merged position by position
  with the optional localised items the section receives, which supply the
  display texts.
*/
module Services {
  import opened Wrappers

  datatype Service = Service(id: nat, title: string, titleEn: string, icon: string)

  /** A localised entry as the section receives it. */
  datatype ServiceItem = ServiceItem(title: string, description: string)

  /** The built-in service table, in display order. */
  const ServicesData: seq<Service> := [
    Service(1, "Firma Tanıtım Filmleri", "Corporate Brand Films",
      "M15 10l4.553-2.276A1 1 0 0121 8.618v6.764a1 1 0 01-1.447.894L15 14M5 18h8a2 2 0 002-2V8a2 2 0 00-2-2H5a2 2 0 00-2 2v8a2 2 0 002 2z"),
    Service(2, "Belgesel Filmleri", "Documentary Productions",
      "M7 4v16M17 4v16M3 8h4m10 0h4M3 12h18M3 16h4m10 0h4M4 20h16a1 1 0 001-1V5a1 1 0 00-1-1H4a1 1 0 00-1 1v14a1 1 0 001 1z"),
    Service(3, "Menajerlik Hizmetleri", "Talent Management",
      "M17 20h5v-2a3 3 0 00-5.356-1.857M17 20H7m10 0v-2c0-.656-.126-1.283-.356-1.857M7 20H2v-2a3 3 0 015.356-1.857M7 20v-2c0-.656.126-1.283.356-1.857m0 0a5.002 5.002 0 019.288 0M15 7a3 3 0 11-6 0 3 3 0 016 0zm6 3a2 2 0 11-4 0 2 2 0 014 0zM7 10a2 2 0 11-4 0 2 2 0 014 0z"),
    Service(4, "Festival Organizasyon", "Festival & Events",
      "M11 5.882V19.24a1.76 1.76 0 01-3.417.592l-2.147-6.15M18 13a3 3 0 100-6M5.436 13.683A4.001 4.001 0 017 6h1.832c4.1 0 7.625-1.234 9.168-3v14c-1.543-1.766-5.067-3-9.168-3H7a3.988 3.988 0 01-1.564-.317z"),
    Service(5, "Motivasyon Etkinlikleri", "Motivation Events",
      "M14.828 14.828a4 4 0 01-5.656 0M9 10h.01M15 10h.01M21 12a9 9 0 11-18 0 9 9 0 0118 0z"),
    Service(6, "Ritm Atölyesi", "Rhythm Workshops",
      "M9 19V6l12-3v13M9 19c0 1.105-1.343 2-3 2s-3-.895-3-2 1.343-2 3-2 3 .895 3 2zm12-3c0 1.105-1.343 2-3 2s-3-.895-3-2 1.343-2 3-2 3 .895 3 2zM9 10l12-3"),
    Service(7, "Dijital Sahne", "Digital Performances",
      "M9.75 17L9 20l-1 1h8l-1-1-.75-3M3 13h18M5 17h14a2 2 0 002-2V5a2 2 0 00-2-2H5a2 2 0 00-2-2H5a2 2 0 00-2 2v10a2 2 0 002 2z")
  ]

  /** `items?.[index]`: nothing when there are no items or the index is past their end. */
  function ItemAt(items: Option<seq<ServiceItem>>, index: nat): (item: Option<ServiceItem>)
    ensures item.Some? <==> items.Some? && index < |items.value|
    ensures item.Some? ==> item.value == items.value[index]
  {
    match items
    case None => None
    case Some(xs) => if index < |xs| then Some(xs[index]) else None
  }

  /** One table entry with the texts of its item, if it has one: the item's
      title becomes the English title, its description the title. */
  function Localise(service: Service, item: Option<ServiceItem>): (r: Service)
    ensures r.id == service.id && r.icon == service.icon
    ensures item.None? ==> r == service
    ensures item.Some? ==> r.titleEn == item.value.title && r.title == item.value.description
  {
    match item
    case None => service
    case Some(it) => service.(titleEn := it.title, title := it.description)
  }

  /** The merged list the section renders. */
  function MergeServices(items: Option<seq<ServiceItem>>): (merged: seq<Service>)
    ensures |merged| == |ServicesData|
    ensures forall i :: 0 <= i < |merged| ==>
      merged[i].id == ServicesData[i].id && merged[i].icon == ServicesData[i].icon
    ensures forall i :: 0 <= i < |merged| ==>
      if items.Some? && i < |items.value| then
        merged[i].titleEn == items.value[i].title && merged[i].title == items.value[i].description
      else
        merged[i].titleEn == ServicesData[i].titleEn && merged[i].title == ServicesData[i].title
  {
    seq(|ServicesData|, i requires 0 <= i < |ServicesData| => Localise(ServicesData[i], ItemAt(items, i)))
  }

  /** The table has seven services with ids 1 to 7 in order, so the ids are
      pairwise distinct. */
  lemma ServiceIdsAreOneToSeven()
    ensures |ServicesData| == 7
    ensures forall i :: 0 <= i < |ServicesData| ==> ServicesData[i].id == i + 1
    ensures forall i, j :: 0 <= i < j < |ServicesData| ==> ServicesData[i].id != ServicesData[j].id
  {
  }

  /** Without items, or with an empty list, the table is shown as it is. */
  lemma NoItemsKeepsTable()
    ensures MergeServices(None) == ServicesData
    ensures MergeServices(Some([])) == ServicesData
  {
  }

  /** Items past the seventh are never looked at. */
  lemma ExtraItemsAreIgnored(items: seq<ServiceItem>)
    requires |items| > |ServicesData|
    ensures MergeServices(Some(items)) == MergeServices(Some(items[..|ServicesData|]))
  {
  }
}
