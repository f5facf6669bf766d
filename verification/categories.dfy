/** The Russian labels of the product categories. */
module Categories {

  /** `CATEGORY_LABELS`. */
  const Labels: map<string, string> := map[
    "all" := "Всё",
    "tee" := "Футболки",
    "hoodie" := "Худи",
    "pants" := "Штаны",
    "jacket" := "Куртки",
    "accessories" := "Аксессуары"]

  /** `getCategoryLabel`: the label of a known category, the category itself otherwise.
      The members an object literal inherits are not looked up. */
  function Label(category: string): (r: string)
    ensures category in Labels ==> r == Labels[category]
    ensures category !in Labels ==> r == category
  {
    if category in Labels then Labels[category] else category
  }

  /** No label is itself a category key. */
  lemma LabelsAreNotKeys(category: string)
    requires category in Labels
    ensures Labels[category] !in Labels
  {
    assert Labels.Keys == {"all", "tee", "hoodie", "pants", "jacket", "accessories"};
    var shown := Labels[category];
    assert shown[0] in "ВФХШКА";
  }

  /** Labelling a label leaves it as it is, so labelling twice is labelling once. */
  lemma LabelIdempotent(category: string)
    ensures Label(Label(category)) == Label(category)
  {
    if category in Labels {
      LabelsAreNotKeys(category);
    }
  }
}
