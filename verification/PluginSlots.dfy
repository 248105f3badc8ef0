/** The room that plugins reserve for their frames (reserve_frame_slot_t). */
module PluginSlots {

  /** A reservation of nbBytes for a frame of a plugin. */
  datatype Slot = Slot(id: nat, plugin: int, nbBytes: nat, isCongestionControlled: bool)
}
