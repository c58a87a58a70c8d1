/**
 * The site's two-language text lookup of src/contexts/LanguageContext.tsx: a table of texts per
 * language, the current language (English until changed) and `t`, which falls back to the key.
 * Each table is the object literal written in the source, entry by entry, grouped by page section.
 */
module Language {
  import opened JsValues

  datatype Lang = En | Es

  /** The provider's state: only the current language. */
  datatype LanguageContext = LanguageContext(language: Lang)

  /** `useState<Language>('en')`. */
  const InitialContext := LanguageContext(En)

  // ---------------------------------------------------------------- the English object literal

  const EnglishHero: seq<(string, string)> := [
    ("hero.greeting", "We are getting married!"),
    ("hero.names", "Enrique & Manuel"),
    ("hero.date", "May 30, 2025"),
    ("hero.location", "Tarifa, Spain")]

  const EnglishNavigation: seq<(string, string)> := [
    ("nav.home", "Home"),
    ("nav.events", "Events"),
    ("nav.travel", "Travel"),
    ("nav.accommodations", "Stay"),
    ("nav.rsvp", "RSVP"),
    ("nav.faq", "FAQ"),
    ("nav.gifts", "Gifts"),
    ("nav.contact", "Contact")]

  const EnglishStory: seq<(string, string)> := [
    ("story.title", "Our Story"),
    ("story.content", "Join us for a three-day celebration of love on the beaches of Tarifa. From intimate gatherings to dancing under the stars, we invite you to share in our joy as we begin this new chapter together.")]

  const EnglishEvents: seq<(string, string)> := [
    ("events.title", "Wedding Events"),
    ("events.early_welcome.title", "Early Welcome"),
    ("events.early_welcome.date", "May 29, 2025"),
    ("events.early_welcome.time", "3:00 PM"),
    ("events.pre_wedding.title", "Pre-Wedding Party"),
    ("events.pre_wedding.date", "May 30, 2025"),
    ("events.pre_wedding.time", "9:00 PM"),
    ("events.ceremony.title", "Wedding Ceremony"),
    ("events.ceremony.date", "May 30, 2025"),
    ("events.ceremony.time", "5:00 PM"),
    ("events.celebration.title", "Wedding Celebration"),
    ("events.celebration.date", "May 30, 2025"),
    ("events.celebration.time", "7:00 PM"),
    ("events.post_wedding.title", "Post-Wedding Brunch"),
    ("events.post_wedding.date", "May 31, 2025"),
    ("events.post_wedding.time", "2:00 PM"),
    ("events.view_map", "View Map")]

  const EnglishRsvp: seq<(string, string)> := [
    ("rsvp.title", "Join Us"),
    ("rsvp.subtitle", "Please let us know if you can celebrate with us"),
    ("rsvp.deadline", "RSVP by April 30, 2025"),
    ("rsvp.button", "RSVP Now")]

  const EnglishTravel: seq<(string, string)> := [
    ("travel.title", "Getting There"),
    ("travel.by_car", "By Car"),
    ("travel.by_train", "By Train"),
    ("travel.by_air", "By Air"),
    ("travel.carpool", "Carpool Available"),
    ("travel.duration", "Duration"),
    ("travel.cost", "Cost"),
    ("travel.route", "Route")]

  const EnglishAccommodations: seq<(string, string)> := [
    ("accommodations.title", "Where to Stay"),
    ("accommodations.featured", "Featured Hotel"),
    ("accommodations.book_now", "Book Now"),
    ("accommodations.coming_soon", "Coming Soon"),
    ("accommodations.subscribe", "Subscribe for Updates"),
    ("accommodations.discount", "Special wedding rate")]

  const EnglishPracticalInfo: seq<(string, string)> := [
    ("practical.title", "What You Need to Know"),
    ("practical.dress_code", "What to Wear"),
    ("practical.weather", "Weather"),
    ("practical.getting_around", "Getting Around"),
    ("practical.bus_schedule", "Bus Schedule")]

  const EnglishWeddingParty: seq<(string, string)> := [
    ("party.title", "Wedding Party"),
    ("party.officiant", "Officiant"),
    ("party.persons_of_honor", "Persons of Honor"),
    ("party.flower_kids", "Flower Kids"),
    ("party.ring_bearer", "Ring Bearer")]

  const EnglishGifts: seq<(string, string)> := [
    ("gifts.title", "Gifts"),
    ("gifts.content", "Your presence is the greatest gift. If you wish to contribute to our honeymoon fund, here are the options:"),
    ("gifts.bank", "Bank Transfer"),
    ("gifts.bizum", "Bizum"),
    ("gifts.crypto", "Crypto")]

  const EnglishFaq: seq<(string, string)> := [
    ("faq.title", "Frequently Asked Questions")]

  const EnglishContact: seq<(string, string)> := [
    ("contact.title", "Get in Touch"),
    ("contact.whatsapp", "Join WhatsApp Group")]

  // ---------------------------------------------------------------- the Spanish object literal

  const SpanishHero: seq<(string, string)> := [
    ("hero.greeting", "¡Nos casamos!"),
    ("hero.names", "Enrique & Manuel"),
    ("hero.date", "30 de Mayo, 2025"),
    ("hero.location", "Tarifa, España")]

  const SpanishNavigation: seq<(string, string)> := [
    ("nav.home", "Inicio"),
    ("nav.events", "Eventos"),
    ("nav.travel", "Viaje"),
    ("nav.accommodations", "Alojamiento"),
    ("nav.rsvp", "RSVP"),
    ("nav.faq", "FAQ"),
    ("nav.gifts", "Regalos"),
    ("nav.contact", "Contacto")]

  const SpanishStory: seq<(string, string)> := [
    ("story.title", "Nuestra Historia"),
    ("story.content", "Únete a nosotros para una celebración de tres días de amor en las playas de Tarifa. Desde reuniones íntimas hasta bailar bajo las estrellas, te invitamos a compartir nuestra alegría mientras comenzamos este nuevo capítulo juntos.")]

  const SpanishEvents: seq<(string, string)> := [
    ("events.title", "Eventos de la Boda"),
    ("events.early_welcome.title", "Bienvenida Temprana"),
    ("events.early_welcome.date", "29 de Mayo, 2025"),
    ("events.early_welcome.time", "15:00"),
    ("events.pre_wedding.title", "Fiesta Pre-Boda"),
    ("events.pre_wedding.date", "30 de Mayo, 2025"),
    ("events.pre_wedding.time", "21:00"),
    ("events.ceremony.title", "Ceremonia de Boda"),
    ("events.ceremony.date", "30 de Mayo, 2025"),
    ("events.ceremony.time", "17:00"),
    ("events.celebration.title", "Celebración de Boda"),
    ("events.celebration.date", "30 de Mayo, 2025"),
    ("events.celebration.time", "19:00"),
    ("events.post_wedding.title", "Brunch Post-Boda"),
    ("events.post_wedding.date", "31 de Mayo, 2025"),
    ("events.post_wedding.time", "14:00"),
    ("events.view_map", "Ver Mapa")]

  const SpanishRsvp: seq<(string, string)> := [
    ("rsvp.title", "Únete a Nosotros"),
    ("rsvp.subtitle", "Por favor, haznos saber si puedes celebrar con nosotros"),
    ("rsvp.deadline", "RSVP antes del 30 de Abril, 2025"),
    ("rsvp.button", "Confirmar Asistencia")]

  const SpanishTravel: seq<(string, string)> := [
    ("travel.title", "Cómo Llegar"),
    ("travel.by_car", "En Coche"),
    ("travel.by_train", "En Tren"),
    ("travel.by_air", "En Avión"),
    ("travel.carpool", "Compartir Coche Disponible"),
    ("travel.duration", "Duración"),
    ("travel.cost", "Costo"),
    ("travel.route", "Ruta")]

  const SpanishAccommodations: seq<(string, string)> := [
    ("accommodations.title", "Dónde Alojarse"),
    ("accommodations.featured", "Hotel Destacado"),
    ("accommodations.book_now", "Reservar Ahora"),
    ("accommodations.coming_soon", "Próximamente"),
    ("accommodations.subscribe", "Suscríbete para Actualizaciones"),
    ("accommodations.discount", "Tarifa especial de boda")]

  const SpanishPracticalInfo: seq<(string, string)> := [
    ("practical.title", "Lo Que Necesitas Saber"),
    ("practical.dress_code", "Qué Ponerse"),
    ("practical.weather", "Clima"),
    ("practical.getting_around", "Cómo Moverse"),
    ("practical.bus_schedule", "Horario de Autobuses")]

  const SpanishWeddingParty: seq<(string, string)> := [
    ("party.title", "Cortejo de Boda"),
    ("party.officiant", "Oficiante"),
    ("party.persons_of_honor", "Personas de Honor"),
    ("party.flower_kids", "Niños de las Flores"),
    ("party.ring_bearer", "Portador de Anillos")]

  const SpanishGifts: seq<(string, string)> := [
    ("gifts.title", "Regalos"),
    ("gifts.content", "Lo importante es que vengan, aunque nos encanta viajar, y si quisieran que lleguemos más lejos pueden contribuir a través de:"),
    ("gifts.bank", "Transferencia Bancaria"),
    ("gifts.bizum", "Bizum"),
    ("gifts.crypto", "Crypto")]

  const SpanishFaq: seq<(string, string)> := [
    ("faq.title", "Preguntas Frecuentes")]

  const SpanishContact: seq<(string, string)> := [
    ("contact.title", "Contacto"),
    ("contact.whatsapp", "Unirse al Grupo de WhatsApp")]

  const EnglishSections: seq<seq<(string, string)>> := [
    EnglishHero, EnglishNavigation, EnglishStory, EnglishEvents, EnglishRsvp, EnglishTravel, EnglishAccommodations, EnglishPracticalInfo, EnglishWeddingParty, EnglishGifts, EnglishFaq, EnglishContact]

  const SpanishSections: seq<seq<(string, string)>> := [
    SpanishHero, SpanishNavigation, SpanishStory, SpanishEvents, SpanishRsvp, SpanishTravel, SpanishAccommodations, SpanishPracticalInfo, SpanishWeddingParty, SpanishGifts, SpanishFaq, SpanishContact]

  const EnglishEntries := Flatten(EnglishSections)

  const SpanishEntries := Flatten(SpanishSections)

  /** No entry's text is empty or equal to its own key. */
  predicate ProperTexts(entries: seq<(string, string)>) {
    forall i :: 0 <= i < |entries| ==> entries[i].1 != "" && entries[i].1 != entries[i].0
  }

  /** Two literals list the same keys in the same order. */
  predicate SameKeys(a: seq<(string, string)>, b: seq<(string, string)>) {
    |a| == |b| && forall i :: 0 <= i < |a| ==> a[i].0 == b[i].0
  }

  lemma {:induction false} FlattenProper(sections: seq<seq<(string, string)>>)
    requires forall j :: 0 <= j < |sections| ==> ProperTexts(sections[j])
    ensures ProperTexts(Flatten(sections))
  {
    if sections != [] {
      FlattenProper(sections[1..]);
      assert ProperTexts(sections[0]);
    }
  }

  lemma {:induction false} FlattenSameKeys(a: seq<seq<(string, string)>>, b: seq<seq<(string, string)>>)
    requires |a| == |b| && forall j :: 0 <= j < |a| ==> SameKeys(a[j], b[j])
    ensures SameKeys(Flatten(a), Flatten(b))
  {
    if a != [] {
      FlattenSameKeys(a[1..], b[1..]);
      assert SameKeys(a[0], b[0]);
      var (fa, fb) := (Flatten(a[1..]), Flatten(b[1..]));
      assert forall i :: 0 <= i < |a[0]| + |fa| ==> (a[0] + fa)[i].0 == (b[0] + fb)[i].0 by {
        forall i | 0 <= i < |a[0]| + |fa|
          ensures (a[0] + fa)[i].0 == (b[0] + fb)[i].0
        {
          if i >= |a[0]| {
            assert (a[0] + fa)[i] == fa[i - |a[0]|];
          }
        }
      }
    }
  }

  /** Section by section, the two literals agree on their keys and carry proper texts. */
  predicate Agree(english: seq<(string, string)>, spanish: seq<(string, string)>) {
    ProperTexts(english) && ProperTexts(spanish) && SameKeys(english, spanish)
  }

  lemma HeroSectionAgrees()
    ensures Agree(EnglishHero, SpanishHero)
  {
  }

  lemma NavigationSectionAgrees()
    ensures Agree(EnglishNavigation, SpanishNavigation)
  {
  }

  lemma StorySectionAgrees()
    ensures Agree(EnglishStory, SpanishStory)
  {
  }

  lemma EventsSectionAgrees()
    ensures Agree(EnglishEvents, SpanishEvents)
  {
  }

  lemma RsvpSectionAgrees()
    ensures Agree(EnglishRsvp, SpanishRsvp)
  {
  }

  lemma TravelSectionAgrees()
    ensures Agree(EnglishTravel, SpanishTravel)
  {
  }

  lemma AccommodationsSectionAgrees()
    ensures Agree(EnglishAccommodations, SpanishAccommodations)
  {
  }

  lemma PracticalInfoSectionAgrees()
    ensures Agree(EnglishPracticalInfo, SpanishPracticalInfo)
  {
  }

  lemma WeddingPartySectionAgrees()
    ensures Agree(EnglishWeddingParty, SpanishWeddingParty)
  {
  }

  lemma GiftsSectionAgrees()
    ensures Agree(EnglishGifts, SpanishGifts)
  {
  }

  lemma FaqSectionAgrees()
    ensures Agree(EnglishFaq, SpanishFaq)
  {
  }

  lemma ContactSectionAgrees()
    ensures Agree(EnglishContact, SpanishContact)
  {
  }

  lemma SectionsAgree()
    ensures |EnglishSections| == |SpanishSections|
    ensures forall j :: 0 <= j < |EnglishSections| ==> Agree(EnglishSections[j], SpanishSections[j])
  {
    HeroSectionAgrees();
    NavigationSectionAgrees();
    StorySectionAgrees();
    EventsSectionAgrees();
    RsvpSectionAgrees();
    TravelSectionAgrees();
    AccommodationsSectionAgrees();
    PracticalInfoSectionAgrees();
    WeddingPartySectionAgrees();
    GiftsSectionAgrees();
    FaqSectionAgrees();
    ContactSectionAgrees();
  }

  const English := ObjectOf(EnglishEntries)

  const Spanish := ObjectOf(SpanishEntries)

  function Table(lang: Lang): map<string, string> {
    match lang
    case En => English
    case Es => Spanish
  }

  // ---------------------------------------------------------------- the lookup

  /** Every text in both tables is non-empty and differs from its key, so `t` never falls back for a known key. */
  lemma EntriesNonEmpty(lang: Lang)
    ensures forall k :: k in Table(lang) ==> Table(lang)[k] != "" && Table(lang)[k] != k
  {
    SectionsAgree();
    assert forall j :: 0 <= j < |EnglishSections| ==> ProperTexts(EnglishSections[j]) && ProperTexts(SpanishSections[j]);
    FlattenProper(EnglishSections);
    FlattenProper(SpanishSections);
    ObjectOfEntries(EnglishEntries);
    ObjectOfEntries(SpanishEntries);
  }

  /** Both languages translate exactly the same keys, listed in the same order. */
  lemma TablesShareKeys()
    ensures SameKeys(EnglishEntries, SpanishEntries)
    ensures English.Keys == Spanish.Keys
  {
    SectionsAgree();
    assert forall j :: 0 <= j < |EnglishSections| ==> SameKeys(EnglishSections[j], SpanishSections[j]);
    FlattenSameKeys(EnglishSections, SpanishSections);
    ObjectOfEntries(EnglishEntries);
    ObjectOfEntries(SpanishEntries);
  }

  /** `t`: the current table's text for the key, or the key itself when that is missing or empty. */
  function Translate(ctx: LanguageContext, key: string): (text: string)
    ensures key in Table(ctx.language) ==> text == Table(ctx.language)[key]
    ensures key !in Table(ctx.language) ==> text == key
  {
    EntriesNonEmpty(ctx.language);
    var table := Table(ctx.language);
    if key in table && table[key] != "" then table[key] else key
  }

  /** `setLanguage`: switches the table `t` consults and nothing else. */
  function SetLanguage(ctx: LanguageContext, lang: Lang): (ctx': LanguageContext)
    ensures ctx'.language == lang
    ensures forall key :: Translate(ctx', key) == Translate(LanguageContext(lang), key)
  {
    LanguageContext(lang)
  }

  /** A key falls back to itself in one language exactly when it does in the other. */
  lemma FallbackAgrees(key: string)
    ensures Translate(LanguageContext(En), key) == key <==> Translate(LanguageContext(Es), key) == key
    ensures Translate(LanguageContext(En), key) == key <==> key !in English
  {
    TablesShareKeys();
    EntriesNonEmpty(En);
    EntriesNonEmpty(Es);
  }

  /** Until a language is chosen, `t` reads the English table. */
  lemma InitiallyEnglish(key: string)
    ensures key in English ==> Translate(InitialContext, key) == English[key]
  {
  }
}
