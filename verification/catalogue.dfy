/**
 * The fixed catalogue of five Portland clues, in play order: each has an id,
 * the prompt sent to the player, the accepted answers (the first one is the
 * answer revealed when the player runs out of hints), three hints and a
 * location tag.
 */
module Catalogue {

  datatype Clue = Clue(
    id: int,
    prompt: string,
    expectedAnswers: seq<string>,
    hints: seq<string>,
    location: string)

  const Clues: seq<Clue> := [
    Clue(
      1,
      "🌹 Start your adventure at Portland's most famous "
        + "garden, where over 10,000 rose bushes bloom. This "
        + "International Rose Test Garden has been testing roses "
        + "since 1917. What's the name of this fragrant paradise?",
      ["International Rose Test Garden",
       "Rose Test Garden",
       "Rose Garden",
       "International Rose Garden",
       "Portland Rose Garden"],
      ["🌹 This garden is in Washington Park and offers "
         + "stunning views of Mount Hood on clear days.",
       "🌹 It's located in the same park as the Japanese Garden "
         + "and has 'International' in its name.",
       "🌹 The garden tests new rose varieties and has been "
         + "doing so for over 100 years!"],
      "Washington Park"),
    Clue(
      2,
      "📚 Next, visit the largest independent bookstore in the "
        + "world! This colorful store takes up an entire city "
        + "block and has a slogan about covering the city. Where "
        + "are you going?",
      ["Powell's Books",
       "Powell's City of Books",
       "Powells",
       "Powell's",
       "City of Books"],
      ["📚 The store uses different colored rooms (Blue, Red, "
         + "Green, etc.) to organize its sections.",
       "📚 It's located in the Pearl District and their slogan "
         + "mentions 'covering' something.",
       "📚 The founder's last name is Powell, and they claim to "
         + "cover the city like a good book!"],
      "Pearl District"),
    Clue(
      3,
      "🍩 Time for a sweet treat! Head to the place where the "
        + "donuts are as weird as the city's slogan. This iconic "
        + "pink box shop has been serving unusual flavors since "
        + "2003. The owner's goal was to keep Portland weird. "
        + "What's this donut shop called?",
      ["Voodoo Doughnut",
       "Voodoo Donuts",
       "Voodoo Doughnuts",
       "Voodoo",
       "VooDoo Doughnut"],
      ["🍩 They're famous for donuts with cereal on top and "
         + "bacon-covered varieties.",
       "🍩 The shop has a pink neon sign and is often "
         + "associated with 'magic' or 'spells'.",
       "🍩 Their most famous donut is covered in Fruit Loops cereal!"],
      "Downtown Portland"),
    Clue(
      4,
      "🏛️ Now explore Portland's living room! This beautiful "
        + "public square hosts farmers markets, festivals, and "
        + "events. It's been the heart of downtown since 1984 and "
        + "is named after a civic leader. What's this gathering "
        + "place called?",
      ["Pioneer Courthouse Square",
       "Pioneer Square",
       "Courthouse Square",
       "Pioneer Courthouse",
       "Portland's Living Room"],
      ["🏛️ It's directly across from a historic federal "
         + "courthouse built in the 1870s.",
       "🏛️ The square features red brick and often has a large "
         + "Christmas tree during holidays.",
       "🏛️ It's nicknamed 'Portland's Living Room' and hosts "
         + "the annual Festival of Lights!"],
      "Downtown Portland"),
    Clue(
      5,
      "🌊 For your final destination, visit the area where two "
        + "major rivers meet! This waterfront district offers "
        + "great views, food carts, and Saturday Market. It's "
        + "named after the direction you'd travel to reach the "
        + "ocean. What's this riverside area called?",
      ["Tom McCall Waterfront Park",
       "Waterfront Park",
       "Tom McCall Park",
       "McCall Waterfront Park",
       "Waterfront District",
       "Saturday Market area"],
      ["🌊 This park stretches along the Willamette River and "
         + "hosts the Saturday Market.",
       "🌊 It's named after a former Oregon governor who was "
         + "known for environmental protection.",
       "🌊 The park offers great views of the Hawthorne and "
         + "Morrison bridges!"],
      "Waterfront")
  ]

  /**
   * What the game relies on in its catalogue: five clues numbered 1 to 5 in
   * order, each with three hints and at least one accepted answer (the first
   * one is revealed after the third hint).
   */
  ghost predicate WellShaped(clues: seq<Clue>) {
    && |clues| == 5
    && forall k :: 0 <= k < |clues| ==>
         clues[k].id == k + 1 && |clues[k].hints| == 3 && |clues[k].expectedAnswers| >= 1
  }

  /** The fixed catalogue has that shape. */
  lemma CatalogueShape()
    ensures WellShaped(Clues)
  {
  }
}
