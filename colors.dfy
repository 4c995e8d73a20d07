/**
 * Colours. Only the presets the pipeline names are distinguished; channel
 * values and colour arithmetic live in color.rs, which is not part of this model.
 */
module Colors {

  datatype Color = Black | Pink | Other(id: nat)
}
