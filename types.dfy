// The value types shared by the lottery, the wheel layout and the page:
// a participant, the application settings and one lottery slot.

module Types {

  datatype Option<+T> = None | Some(value: T)

  /** A participant of the roulette. `id` is an opaque equality key. */
  datatype Participant = Participant(
    id: string,
    name: string,
    color: string,
    isExcluded: bool,
    isSpecial: bool)   // the starred "please let them win" flag

  /** The settings. Slot counts are whole numbers; the duration is in milliseconds. */
  datatype Settings = Settings(
    globalSlotCount: nat,
    spinDuration: real,
    specialMultiplier: nat)

  /** One unit of selection weight in the lottery pool. */
  datatype Slot = Slot(participantId: string, participant: Participant)

  /** The lower bounds the settings sliders enforce: base count 1-5,
      multiplier 2-10, duration 2000-4000 ms. */
  predicate ValidSettings(s: Settings) {
    s.globalSlotCount >= 1 && s.specialMultiplier >= 2 && s.spinDuration > 0.0
  }

  /** The settings a fresh state starts with. */
  const DefaultSettings := Settings(1, 2800.0, 3)
}
